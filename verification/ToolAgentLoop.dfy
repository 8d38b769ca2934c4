/**
 The multi-turn loop of verl/experimental/agent_loop/tool_agent_loop.py: model turns and tool replies are
 appended to one token list, with a mask that tells them apart, until a budget or a turn limit ends the run.
 */
module ToolAgentLoop {
  import opened Sequences
  import opened Wrappers

  type Token = int

  /** What follows a generation: no tool call, a tool that raised, or the tokens of the tools' replies. */
  datatype Reply = NoCalls | Raised | Replied(tokens: seq<Token>)

  /** One turn of the outside world: what the model generates, and what its tool calls lead to. */
  datatype Round = Round(response: seq<Token>, reply: Reply)

  /** Zero stands for a limit that is not set. */
  datatype Config = Config(responseLength: nat, maxAssistantTurns: int, maxUserTurns: int)

  datatype Output = Output(promptIds: seq<Token>, responseIds: seq<Token>, responseMask: seq<int>, numTurns: nat)

  // ---------- what a run says ----------

  function ReplyTokens(r: Reply): seq<Token> {
    if r.Replied? then r.tokens else []
  }

  /** The tokens of n model turns and the replies to each. */
  function Exchanged(script: seq<Round>, n: nat): (s: seq<Token>)
    requires n <= |script|
  {
    if n == 0 then []
    else Exchanged(script, n - 1) + script[n - 1].response + ReplyTokens(script[n - 1].reply)
  }

  /** The tokens of n model turns with the n - 1 replies between them. */
  function Said(script: seq<Round>, n: nat): (s: seq<Token>)
    requires n <= |script|
  {
    if n == 0 then [] else Exchanged(script, n - 1) + script[n - 1].response
  }

  function Marks(n: nat, mark: int): (m: seq<int>)
    ensures |m| == n && forall i :: 0 <= i < n ==> m[i] == mark
  {
    seq(n, _ => mark)
  }

  function ExchangedMask(script: seq<Round>, n: nat): (m: seq<int>)
    requires n <= |script|
  {
    if n == 0 then []
    else ExchangedMask(script, n - 1) + Marks(|script[n - 1].response|, 1)
         + Marks(|ReplyTokens(script[n - 1].reply)|, 0)
  }

  /** 1 on model tokens, 0 on reply tokens. */
  function Mask(script: seq<Round>, n: nat): (m: seq<int>)
    requires n <= |script|
  {
    if n == 0 then [] else ExchangedMask(script, n - 1) + Marks(|script[n - 1].response|, 1)
  }

  /** The mask has an entry for every token. */
  lemma {:induction false} MaskAligned(script: seq<Round>, n: nat)
    requires n <= |script|
    ensures |ExchangedMask(script, n)| == |Exchanged(script, n)| && |Mask(script, n)| == |Said(script, n)|
  {
    if n > 0 { MaskAligned(script, n - 1); }
  }

  /** The breaks of the loop, with `said` tokens after the n-th model turn. */
  predicate Ends(c: Config, said: nat, n: nat, reply: Reply)
    requires n >= 1
  {
    || said >= c.responseLength
    || (c.maxAssistantTurns != 0 && n >= c.maxAssistantTurns)
    || (c.maxUserTurns != 0 && n - 1 >= c.maxUserTurns)
    || !reply.Replied?
    || said + |reply.tokens| >= c.responseLength
  }

  /** The run ends with its n-th model turn. */
  predicate Stops(c: Config, script: seq<Round>, n: nat)
    requires 1 <= n <= |script|
  {
    Ends(c, |Said(script, n)|, n, script[n - 1].reply)
  }

  predicate RunsPast(c: Config, script: seq<Round>, n: nat)
    requires n <= |script|
  {
    forall m :: 1 <= m <= n ==> !Stops(c, script, m)
  }

  predicate EndsAt(c: Config, script: seq<Round>, n: nat)
    requires 1 <= n <= |script|
  {
    RunsPast(c, script, n - 1) && Stops(c, script, n)
  }

  // ---------- when a run goes on, in numbers of tokens ----------

  /** How many tokens the first n turns and the replies to them have. */
  function TokensTo(script: seq<Round>, n: nat): nat
    requires n <= |script|
  {
    if n == 0 then 0
    else TokensTo(script, n - 1) + |script[n - 1].response| + |ReplyTokens(script[n - 1].reply)|
  }

  /** No set turn limit is reached at the m-th turn, its reply comes, and budget is left before and after it. */
  predicate GoesOn(c: Config, script: seq<Round>, m: nat)
    requires 1 <= m <= |script|
  {
    && TokensTo(script, m - 1) + |script[m - 1].response| < c.responseLength
    && (c.maxAssistantTurns == 0 || m < c.maxAssistantTurns)
    && (c.maxUserTurns == 0 || m - 1 < c.maxUserTurns)
    && script[m - 1].reply.Replied?
    && TokensTo(script, m) < c.responseLength
  }

  lemma {:induction false} ExchangedTokens(script: seq<Round>, n: nat)
    requires n <= |script|
    ensures |Exchanged(script, n)| == TokensTo(script, n)
  {
    if n > 0 { ExchangedTokens(script, n - 1); }
  }

  lemma GoesOnIff(c: Config, script: seq<Round>, m: nat)
    requires 1 <= m <= |script|
    ensures GoesOn(c, script, m) <==> !Stops(c, script, m)
  {
    ExchangedTokens(script, m - 1);
    ExchangedTokens(script, m);
  }

  /** n turns go on. */
  predicate AllGoOn(c: Config, script: seq<Round>, n: nat)
    requires n <= |script|
  {
    forall m :: 1 <= m <= n ==> GoesOn(c, script, m)
  }

  /** A run gets past n turns exactly if each of them goes on. */
  lemma RunsPastIff(c: Config, script: seq<Round>, n: nat)
    requires n <= |script|
    ensures RunsPast(c, script, n) <==> AllGoOn(c, script, n)
  {
    forall m | 1 <= m <= n ensures GoesOn(c, script, m) <==> !Stops(c, script, m) { GoesOnIff(c, script, m); }
  }

  lemma {:induction false} ExchangedGrows(script: seq<Round>, m: nat, n: nat)
    requires m <= n <= |script|
    ensures Exchanged(script, m) <= Exchanged(script, n) && ExchangedMask(script, m) <= ExchangedMask(script, n)
  {
    if m < n { ExchangedGrows(script, m, n - 1); }
  }

  /** The tokens of s from position `at` are those of `part`. */
  predicate StandsAt<T(==)>(part: seq<T>, s: seq<T>, at: nat) {
    at + |part| <= |s| && forall j :: 0 <= j < |part| ==> s[at + j] == part[j]
  }

  lemma MiddleStands<T>(a: seq<T>, b: seq<T>, c: seq<T>, whole: seq<T>, more: seq<T>)
    requires a + b + c <= whole
    ensures StandsAt(b, whole + more, |a|) && StandsAt(c, whole + more, |a| + |b|)
  {
    var all := a + b + c;
    assert all <= whole + more;
    forall j | 0 <= j < |b| ensures (whole + more)[|a| + j] == b[j] { assert all[|a| + j] == b[j]; }
    forall j | 0 <= j < |c| ensures (whole + more)[|a| + |b| + j] == c[j] { assert all[|a| + |b| + j] == c[j]; }
  }

  lemma EndStands<T>(a: seq<T>, b: seq<T>)
    ensures StandsAt(b, a + b, |a|)
  {
  }

  /** b, and c behind it, stand after a in a sequence that starts with a + b + c, or that is a + b. */
  lemma PiecesStand<T>(a: seq<T>, b: seq<T>, c: seq<T>, s: seq<T>, whole: seq<T>, more: seq<T>, at: nat, last: bool)
    requires |a| == at && s == (if last then a + b else whole + more)
    requires !last ==> a + b + c <= whole
    ensures StandsAt(b, s, at) && (!last ==> StandsAt(c, s, at + |b|))
  {
    if last { EndStands(a, b); } else { MiddleStands(a, b, c, whole, more); }
  }

  lemma SaidTokens(script: seq<Round>, n: nat)
    requires 1 <= n <= |script|
    ensures |Said(script, n)| == TokensTo(script, n - 1) + |script[n - 1].response|
  {
    ExchangedTokens(script, n - 1);
  }

  /** The m-th turn's tokens come after those of the m - 1 turns before it and the replies to them. */
  lemma TurnStandsAt(script: seq<Round>, m: nat, n: nat)
    requires 1 <= m <= n <= |script|
    ensures StandsAt(script[m - 1].response, Said(script, n), TokensTo(script, m - 1))
    ensures m < n ==> StandsAt(ReplyTokens(script[m - 1].reply), Said(script, n),
                               TokensTo(script, m - 1) + |script[m - 1].response|)
  {
    var r := script[m - 1];
    ExchangedTokens(script, m - 1);
    if m < n { ExchangedGrows(script, m, n - 1); }
    PiecesStand(Exchanged(script, m - 1), r.response, ReplyTokens(r.reply), Said(script, n),
                Exchanged(script, n - 1), script[n - 1].response, TokensTo(script, m - 1), m == n);
  }

  lemma ExchangedMaskTokens(script: seq<Round>, n: nat)
    requires n <= |script|
    ensures |ExchangedMask(script, n)| == TokensTo(script, n)
  {
    MaskAligned(script, n);
    ExchangedTokens(script, n);
  }

  /** The mask has ones where a turn's tokens stand, and zeros where its reply's stand. */
  lemma TurnMarkedAt(script: seq<Round>, m: nat, n: nat)
    requires 1 <= m <= n <= |script|
    ensures StandsAt(Marks(|script[m - 1].response|, 1), Mask(script, n), TokensTo(script, m - 1))
    ensures m < n ==> StandsAt(Marks(|ReplyTokens(script[m - 1].reply)|, 0), Mask(script, n),
                               TokensTo(script, m - 1) + |script[m - 1].response|)
  {
    var r := script[m - 1];
    ExchangedMaskTokens(script, m - 1);
    if m < n { ExchangedGrows(script, m, n - 1); }
    PiecesStand(ExchangedMask(script, m - 1), Marks(|r.response|, 1), Marks(|ReplyTokens(r.reply)|, 0),
                Mask(script, n), ExchangedMask(script, n - 1), Marks(|script[n - 1].response|, 1),
                TokensTo(script, m - 1), m == n);
  }

  // ---------- the loop ----------

  /** Python's `s[-n:]`, which is the whole list if n is 0. */
  function Tail<T>(s: seq<T>, n: nat): seq<T>
    requires n <= |s|
  {
    if n == 0 then s else s[|s| - n..]
  }

  function Clip<T>(s: seq<T>, n: nat): (r: seq<T>)
    ensures |r| == Min(|s|, n)
  {
    s[..Min(|s|, n)]
  }

  /** The lines after the loop. */
  function Finish(c: Config, promptIds: seq<Token>, mask: seq<int>, userTurns: nat, assistantTurns: nat): Output
    requires |mask| <= |promptIds|
  {
    Output(promptIds[..|promptIds| - |mask|], Clip(Tail(promptIds, |mask|), c.responseLength),
           Clip(mask, c.responseLength), userTurns + assistantTurns + 1)
  }

  /** The breaks of the loop body, in their order. */
  method ShouldStop(c: Config, said: nat, userTurns: nat, assistantTurns: nat, reply: Reply) returns (stop: bool)
    requires assistantTurns == userTurns + 1
    ensures stop <==> Ends(c, said, assistantTurns, reply)
  {
    if said >= c.responseLength { return true; }
    if c.maxAssistantTurns != 0 && assistantTurns >= c.maxAssistantTurns { return true; }
    if c.maxUserTurns != 0 && userTurns >= c.maxUserTurns { return true; }
    if reply.NoCalls? { return true; }
    if reply.Raised? { return true; }
    return said + |reply.tokens| >= c.responseLength;
  }

  lemma RunsOn(c: Config, script: seq<Round>, n: nat)
    requires 1 <= n <= |script| && RunsPast(c, script, n - 1) && !Stops(c, script, n)
    ensures RunsPast(c, script, n)
  {
    forall m | 1 <= m <= n ensures !Stops(c, script, m) {}
  }

  lemma ReplyNext(prompt: seq<Token>, script: seq<Round>, n: nat, promptIds: seq<Token>, mask: seq<int>)
    requires 1 <= n <= |script| && script[n - 1].reply.Replied?
    requires promptIds == prompt + Said(script, n) && mask == Mask(script, n)
    ensures promptIds + script[n - 1].reply.tokens == prompt + Exchanged(script, n)
    ensures mask + Marks(|script[n - 1].reply.tokens|, 0) == ExchangedMask(script, n)
  {
    ConcatAssociates(prompt, Said(script, n), script[n - 1].reply.tokens);
  }

  lemma SaidNext(prompt: seq<Token>, script: seq<Round>, n: nat, promptIds: seq<Token>)
    requires 1 <= n <= |script| && promptIds == prompt + Exchanged(script, n - 1) + script[n - 1].response
    ensures promptIds == prompt + Said(script, n)
  {
    ConcatAssociates(prompt, Exchanged(script, n - 1), script[n - 1].response);
  }

  /** The state that the loop leaves behind; `ended` is false if the script was too short for it to end. */
  method Converse(c: Config, prompt: seq<Token>, script: seq<Round>)
    returns (ended: bool, promptIds: seq<Token>, responseMask: seq<int>, userTurns: nat, assistantTurns: nat)
    ensures !ended <==> RunsPast(c, script, |script|)
    ensures ended ==> 1 <= assistantTurns <= |script| && EndsAt(c, script, assistantTurns)
    ensures ended ==> userTurns == assistantTurns - 1
    ensures ended ==> promptIds == prompt + Said(script, assistantTurns)
    ensures ended ==> responseMask == Mask(script, assistantTurns)
  {
    ended, promptIds, responseMask := false, prompt, [];
    userTurns, assistantTurns := 0, 0;
    while assistantTurns < |script|
      invariant userTurns == assistantTurns <= |script| && RunsPast(c, script, assistantTurns)
      invariant promptIds == prompt + Exchanged(script, assistantTurns)
      invariant responseMask == ExchangedMask(script, assistantTurns)
    {
      var round := script[assistantTurns];
      promptIds := promptIds + round.response;
      responseMask := responseMask + Marks(|round.response|, 1);
      assistantTurns := assistantTurns + 1;
      SaidNext(prompt, script, assistantTurns, promptIds);
      MaskAligned(script, assistantTurns);
      var stop := ShouldStop(c, |responseMask|, userTurns, assistantTurns, round.reply);
      assert stop <==> Stops(c, script, assistantTurns);
      if stop {
        ended := true;
        return;
      }
      RunsOn(c, script, assistantTurns);
      ReplyNext(prompt, script, assistantTurns, promptIds, responseMask);
      promptIds := promptIds + round.reply.tokens;
      responseMask := responseMask + Marks(|round.reply.tokens|, 0);
      userTurns := userTurns + 1;
    }
  }

  /** `ToolAgentLoop.run` */
  method Run(c: Config, prompt: seq<Token>, script: seq<Round>) returns (r: Option<Output>, ghost n: nat)
    ensures r.None? <==> RunsPast(c, script, |script|)
    ensures r.Some? ==> 1 <= n <= |script| && EndsAt(c, script, n) && |Mask(script, n)| == |Said(script, n)|
    ensures r.Some? ==> r.value == Finish(c, prompt + Said(script, n), Mask(script, n), n - 1, n)
    ensures r.None? <==> AllGoOn(c, script, |script|)
    ensures r.Some? ==> AllGoOn(c, script, n - 1) && !GoesOn(c, script, n) && r.value.numTurns == 2 * (n - 1) + 2
  {
    var ended, promptIds, responseMask, userTurns, assistantTurns := Converse(c, prompt, script);
    n := assistantTurns;
    RunsPastIff(c, script, |script|);
    if !ended { return None, n; }
    MaskAligned(script, n);
    RunsPastIff(c, script, n - 1);
    GoesOnIff(c, script, n);
    return Some(Finish(c, promptIds, responseMask, userTurns, assistantTurns)), n;
  }

  // ---------- what the output is worth ----------

  /** The prompt comes back unchanged, and the response and its mask are the start of what was said. */
  predicate Faithful(c: Config, prompt: seq<Token>, script: seq<Round>, n: nat, o: Output)
    requires n <= |script|
  {
    && o.promptIds == prompt
    && o.responseIds == Clip(Said(script, n), c.responseLength)
    && o.responseMask == Clip(Mask(script, n), c.responseLength)
    && |o.responseIds| == |o.responseMask| <= c.responseLength
  }

  /**
   The output is faithful unless nothing at all was said: then the response is a copy of the prompt, with an
   empty mask.
   */
  lemma FaithfulIff(c: Config, prompt: seq<Token>, script: seq<Round>, n: nat)
    requires 1 <= n <= |script|
    ensures |Mask(script, n)| == |Said(script, n)|
    ensures Faithful(c, prompt, script, n, Finish(c, prompt + Said(script, n), Mask(script, n), n - 1, n))
      <==> Said(script, n) != [] || prompt == [] || c.responseLength == 0
  {
    MaskAligned(script, n);
    var said := Said(script, n);
    var all := prompt + said;
    assert all[..|all| - |said|] == prompt;
    if said != [] {
      assert Tail(all, |said|) == said;
    } else {
      assert all == prompt;
    }
  }

  /** A run of one empty generation hands the prompt back as the response. */
  lemma EmptyGenerationLeaksPrompt(prompt: seq<Token>)
    requires prompt != []
    ensures var c, script := Config(|prompt|, 0, 0), [Round([], NoCalls)];
      EndsAt(c, script, 1) &&
      Finish(c, prompt + Said(script, 1), Mask(script, 1), 0, 1) == Output(prompt, prompt, [], 2)
  {
    assert prompt + [] == prompt;
  }

  lemma ExchangedWithin(c: Config, script: seq<Round>, m: nat)
    requires 1 <= m <= |script| && !Stops(c, script, m)
    ensures |Exchanged(script, m)| < c.responseLength
  {
  }

  lemma PrefixClipped<T>(a: seq<T>, b: seq<T>, more: seq<T>, k: nat)
    requires a <= b && |a| <= k
    ensures a <= Clip(b + more, k)
  {
  }

  lemma ExchangedKept(script: seq<Round>, m: nat, n: nat, k: nat)
    requires m < n <= |script| && |Exchanged(script, m)| <= k
    ensures Exchanged(script, m) <= Clip(Said(script, n), k)
  {
    ExchangedGrows(script, m, n - 1);
    PrefixClipped(Exchanged(script, m), Exchanged(script, n - 1), script[n - 1].response, k);
  }

  lemma MaskKept(script: seq<Round>, m: nat, n: nat, k: nat)
    requires m < n <= |script| && |Exchanged(script, m)| <= k
    ensures ExchangedMask(script, m) <= Clip(Mask(script, n), k)
  {
    ExchangedGrows(script, m, n - 1);
    MaskAligned(script, m);
    PrefixClipped(ExchangedMask(script, m), ExchangedMask(script, n - 1), Marks(|script[n - 1].response|, 1), k);
  }

  /** Replies are never cut: what was exchanged up to any earlier turn ends before the response budget does. */
  lemma RepliesUncut(c: Config, script: seq<Round>, n: nat, m: nat)
    requires 1 <= m < n <= |script| && EndsAt(c, script, n)
    ensures Exchanged(script, m) <= Clip(Said(script, n), c.responseLength)
    ensures ExchangedMask(script, m) <= Clip(Mask(script, n), c.responseLength)
  {
    ExchangedWithin(c, script, m);
    ExchangedKept(script, m, n, c.responseLength);
    MaskKept(script, m, n, c.responseLength);
  }

  lemma LastTurnMask(script: seq<Round>, n: nat, i: nat)
    requires 1 <= n <= |script| && |Exchanged(script, n - 1)| <= i < |Mask(script, n)|
    ensures Mask(script, n)[i] == 1
  {
    MaskAligned(script, n - 1);
    var before, last := ExchangedMask(script, n - 1), Marks(|script[n - 1].response|, 1);
    assert (before + last)[i] == last[i - |before|];
  }

  /** Whatever is cut off was said by the model. */
  lemma OnlyModelTokensCut(c: Config, script: seq<Round>, n: nat, i: nat)
    requires 1 <= n <= |script| && EndsAt(c, script, n) && c.responseLength <= i < |Mask(script, n)|
    ensures Mask(script, n)[i] == 1
  {
    if n > 1 { ExchangedWithin(c, script, n - 1); }
    LastTurnMask(script, n, i);
  }

  /** Both turn limits hold; there is one model turn more than there are user turns. */
  lemma TurnsWithinLimits(c: Config, script: seq<Round>, n: nat)
    requires 1 <= n <= |script| && EndsAt(c, script, n)
    ensures c.maxAssistantTurns >= 1 ==> n <= c.maxAssistantTurns
    ensures c.maxUserTurns >= 1 ==> n - 1 <= c.maxUserTurns
  {
    if n > 1 { assert !Stops(c, script, n - 1); }
  }

  lemma {:induction false} ExchangedAtLeast(script: seq<Round>, n: nat)
    requires n <= |script| && forall i :: 0 <= i < n ==> script[i].response != []
    ensures |Exchanged(script, n)| >= n
  {
    if n > 0 { ExchangedAtLeast(script, n - 1); }
  }

  /** If every generation has a token, the run ends within as many turns as the response may have tokens. */
  lemma NonEmptyGenerationsEnd(c: Config, script: seq<Round>)
    requires |script| >= Max(1, c.responseLength)
    requires forall i :: 0 <= i < |script| ==> script[i].response != []
    ensures !RunsPast(c, script, Max(1, c.responseLength))
  {
    var n := Max(1, c.responseLength);
    ExchangedAtLeast(script, n - 1);
    assert Stops(c, script, n);
  }

  /** A limit on the model's turns ends every run by the turn it names. */
  lemma TurnLimitEnds(c: Config, script: seq<Round>)
    requires c.maxAssistantTurns != 0 && |script| >= Max(1, c.maxAssistantTurns)
    ensures !RunsPast(c, script, Max(1, c.maxAssistantTurns))
  {
    assert Stops(c, script, Max(1, c.maxAssistantTurns));
  }

  /** A limit on the tools' turns ends every run one model turn later. */
  lemma UserTurnLimitEnds(c: Config, script: seq<Round>)
    requires c.maxUserTurns != 0 && |script| >= Max(1, c.maxUserTurns + 1)
    ensures !RunsPast(c, script, Max(1, c.maxUserTurns + 1))
  {
    assert Stops(c, script, Max(1, c.maxUserTurns + 1));
  }

  lemma {:induction false} SilentSays(script: seq<Round>, n: nat)
    requires n <= |script| && forall i :: 0 <= i < |script| ==> script[i] == Round([], Replied([]))
    ensures Exchanged(script, n) == []
  {
    if n > 0 { SilentSays(script, n - 1); }
  }

  /** Without turn limits, empty generations whose tools reply with nothing keep the loop going for any time. */
  lemma SilenceNeverEnds(c: Config, script: seq<Round>)
    requires c.responseLength >= 1 && c.maxAssistantTurns == 0 && c.maxUserTurns == 0
    requires forall i :: 0 <= i < |script| ==> script[i] == Round([], Replied([]))
    ensures RunsPast(c, script, |script|)
  {
    forall m | 1 <= m <= |script| ensures !Stops(c, script, m) { SilentSays(script, m - 1); }
  }

  /** No run takes more than b turns, whatever the model and the tools say. */
  ghost predicate Bounds(c: Config, b: nat) {
    forall script: seq<Round> :: |script| >= b ==> !RunsPast(c, script, b)
  }

  /** The number of turns is bounded exactly if a turn limit is set or no response token is allowed. */
  lemma BoundedIff(c: Config)
    ensures (exists b: nat :: Bounds(c, b))
      <==> c.maxAssistantTurns != 0 || c.maxUserTurns != 0 || c.responseLength == 0
  {
    if c.maxAssistantTurns != 0 {
      forall script: seq<Round> | |script| >= Max(1, c.maxAssistantTurns)
        ensures !RunsPast(c, script, Max(1, c.maxAssistantTurns))
      {
        TurnLimitEnds(c, script);
      }
      assert Bounds(c, Max(1, c.maxAssistantTurns));
    } else if c.maxUserTurns != 0 {
      forall script: seq<Round> | |script| >= Max(1, c.maxUserTurns + 1)
        ensures !RunsPast(c, script, Max(1, c.maxUserTurns + 1))
      {
        UserTurnLimitEnds(c, script);
      }
      assert Bounds(c, Max(1, c.maxUserTurns + 1));
    } else if c.responseLength == 0 {
      forall script: seq<Round> | |script| >= 1 ensures !RunsPast(c, script, 1) {
        assert Stops(c, script, 1);
      }
      assert Bounds(c, 1);
    } else {
      forall b: nat ensures !Bounds(c, b) {
        var script := seq(b, _ => Round([], Replied([])));
        SilenceNeverEnds(c, script);
        assert |script| >= b;
      }
    }
  }
}
