/** The benchmark tool's assignment of isolation tokens to streams: a new token every so many
    streams of a run, and always a new one when a run begins. */
module Tracker {

  /** One call: the run it is for, and how many tokens other code drew since the last call. */
  datatype Call = Call(run: nat, gap: nat)

  /** `supply` is the next token that the process would hand out. */
  datatype State = State(curRun: nat, nextStream: nat, curToken: nat, supply: nat)

  predicate NeedsToken(s: State, n: nat, run: nat)
    requires n > 0
  {
    run != s.curRun || s.nextStream % n == 0
  }

  function Next(s: State, n: nat, c: Call): State
    requires n > 0
  {
    var stream := if c.run != s.curRun then 0 else s.nextStream;
    var spare := s.supply + c.gap;
    if NeedsToken(s, n, c.run) then State(c.run, stream + 1, spare, spare + 1)
    else State(c.run, stream + 1, s.curToken, spare)
  }

  function Initial(supply: nat): State {
    State(0, 0, supply, supply + 1)
  }

  function After(n: nat, supply: nat, cs: seq<Call>): State
    requires n > 0
  {
    if cs == [] then Initial(supply) else Next(After(n, supply, cs[..|cs| - 1]), n, cs[|cs| - 1])
  }

  class StreamIsolationTracker {
    const streamsPerCirc: nat
    var curRun: nat
    var nextStream: nat
    var curToken: nat

    constructor (n: nat, token: nat)
      ensures streamsPerCirc == n && curRun == 0 && nextStream == 0 && curToken == token
    {
      streamsPerCirc, curRun, nextStream, curToken := n, 0, 0, token;
    }

    /** `spare` is the token that `IsolationToken::new` would give now. */
    method NextIn(run: nat, spare: nat) returns (token: nat, drawn: bool)
      requires streamsPerCirc > 0
      modifies this
      ensures var s := old(State(curRun, nextStream, curToken, spare));
              && State(curRun, nextStream, curToken, if drawn then spare + 1 else spare) ==
                 Next(s, streamsPerCirc, Call(run, 0))
              && drawn == NeedsToken(s, streamsPerCirc, run)
      ensures token == curToken
    {
      drawn := false;
      if run != curRun {
        curRun := run;
        nextStream := 0;
        curToken := spare;
        drawn := true;
      } else if nextStream % streamsPerCirc == 0 {
        curToken := spare;
        drawn := true;
      }
      nextStream := nextStream + 1;
      token := curToken;
    }
  }

  /** The token that call `i` of the history gets. */
  function Token(n: nat, supply: nat, cs: seq<Call>, i: nat): nat
    requires n > 0 && i < |cs|
  {
    After(n, supply, cs[..i + 1]).curToken
  }

  /** Where the unbroken stretch of calls for one run, up to call `i`, begins. */
  function StretchStart(cs: seq<Call>, i: nat): (st: nat)
    requires i < |cs|
    ensures st <= i
    ensures forall k :: st <= k <= i ==> cs[k].run == cs[i].run
    ensures st > 0 ==> cs[st - 1].run != cs[i].run
  {
    if i > 0 && cs[i - 1].run == cs[i].run then StretchStart(cs, i - 1) else i
  }

  /** Calls `i` and `j` are in the same stretch and in the same group of `n` within it. */
  predicate SameGroup(n: nat, cs: seq<Call>, i: nat, j: nat)
    requires n > 0 && i < |cs| && j < |cs|
  {
    && StretchStart(cs, i) == StretchStart(cs, j)
    && (i - StretchStart(cs, i)) / n == (j - StretchStart(cs, j)) / n
  }

  lemma {:induction false} AfterIs(n: nat, supply: nat, cs: seq<Call>, i: nat)
    requires n > 0 && i < |cs|
    ensures var s := After(n, supply, cs[..i + 1]);
            s.curRun == cs[i].run && s.nextStream == i + 1 - StretchStart(cs, i) && s.curToken < s.supply
    ensures After(n, supply, cs[..i + 1]) == Next(After(n, supply, cs[..i]), n, cs[i])
  {
    assert cs[..i + 1][..i] == cs[..i];
    if i > 0 {
      AfterIs(n, supply, cs, i - 1);
    }
  }

  /** A new token is drawn exactly at the start of a stretch and every `n` calls into it. */
  predicate StartsGroup(n: nat, cs: seq<Call>, i: nat)
    requires n > 0 && i < |cs|
  {
    StretchStart(cs, i) == i || (i - StretchStart(cs, i)) % n == 0
  }

  lemma {:induction false} TokenStep(n: nat, supply: nat, cs: seq<Call>, i: nat)
    requires n > 0 && 0 < i < |cs|
    ensures StartsGroup(n, cs, i) ==> Token(n, supply, cs, i - 1) < Token(n, supply, cs, i)
    ensures !StartsGroup(n, cs, i) ==> Token(n, supply, cs, i - 1) == Token(n, supply, cs, i)
  {
    AfterIs(n, supply, cs, i);
    AfterIs(n, supply, cs, i - 1);
  }

  lemma MultipleInRange(d: int, n: int)
    requires -n < d * n < n
    ensures d == 0
  {
  }

  lemma DivUnique(x: nat, n: nat, q: nat, r: nat)
    requires n > 0 && x == q * n + r && r < n
    ensures x / n == q && x % n == r
  {
    var d := x / n - q;
    assert x == (x / n) * n + x % n;
    assert d * n == r - x % n;
    MultipleInRange(d, n);
  }

  lemma DivStep(x: nat, n: nat)
    requires n > 0 && x > 0
    ensures x % n == 0 ==> x / n == (x - 1) / n + 1
    ensures x % n != 0 ==> x / n == (x - 1) / n
  {
    var q, r := (x - 1) / n, (x - 1) % n;
    assert x - 1 == q * n + r;
    if r + 1 == n {
      assert x == (q + 1) * n;
      DivUnique(x, n, q + 1, 0);
    } else {
      DivUnique(x, n, q, r + 1);
    }
  }

  lemma {:induction false} DivMono(x: nat, y: nat, n: nat)
    requires n > 0 && x <= y
    ensures x / n <= y / n
    decreases y - x
  {
    if x < y {
      DivMono(x, y - 1, n);
      DivStep(y, n);
    }
  }

  lemma {:induction false} GroupStep(n: nat, cs: seq<Call>, i: nat, j: nat)
    requires n > 0 && i < j < |cs|
    ensures SameGroup(n, cs, i, j) <==> SameGroup(n, cs, i, j - 1) && !StartsGroup(n, cs, j)
  {
    var st := StretchStart(cs, j);
    if st == j {
      assert StretchStart(cs, i) != j;
    } else {
      DivStep(j - st, n);
      if StretchStart(cs, i) == st {
        DivMono(i - st, j - 1 - st, n);
      }
    }
  }

  /** For every history, two calls get the same token exactly when they are in the same stretch
      and in the same group of `n` within it. */
  lemma {:induction false} SameTokenIffSameGroup(n: nat, supply: nat, cs: seq<Call>, i: nat, j: nat)
    requires n > 0 && i <= j < |cs|
    ensures Token(n, supply, cs, i) <= Token(n, supply, cs, j)
    ensures Token(n, supply, cs, i) == Token(n, supply, cs, j) <==> SameGroup(n, cs, i, j)
    decreases j
  {
    if i < j {
      SameTokenIffSameGroup(n, supply, cs, i, j - 1);
      TokenStep(n, supply, cs, j);
      GroupStep(n, cs, i, j);
    }
  }

  /** Between two calls for a run there are only calls for that run. */
  predicate NotInterleaved(cs: seq<Call>) {
    forall i, k, j :: 0 <= i <= k <= j < |cs| && cs[i].run == cs[j].run ==> cs[k].run == cs[i].run
  }

  lemma {:induction false} OneStretch(cs: seq<Call>, i: nat, j: nat)
    requires NotInterleaved(cs) && i <= j < |cs| && cs[i].run == cs[j].run
    ensures StretchStart(cs, i) == StretchStart(cs, j)
    decreases j
  {
    if i < j {
      assert cs[j - 1].run == cs[i].run;
      OneStretch(cs, i, j - 1);
    }
  }

  function CountRun(cs: seq<Call>, run: nat): nat {
    if cs == [] then 0 else CountRun(cs[..|cs| - 1], run) + (if cs[|cs| - 1].run == run then 1 else 0)
  }

  /** The position of call `i` among the calls for its run. */
  function InRun(cs: seq<Call>, i: nat): nat
    requires i < |cs|
  {
    CountRun(cs[..i], cs[i].run)
  }

  lemma InStretchIff(cs: seq<Call>, i: nat, k: nat)
    requires NotInterleaved(cs) && k <= i < |cs|
    ensures cs[k].run == cs[i].run <==> StretchStart(cs, i) <= k
  {
    if cs[k].run == cs[i].run {
      OneStretch(cs, k, i);
    }
  }

  lemma {:induction false} CountStretch(cs: seq<Call>, i: nat, k: nat)
    requires NotInterleaved(cs) && k <= i < |cs|
    ensures CountRun(cs[..k], cs[i].run) == if k <= StretchStart(cs, i) then 0 else k - StretchStart(cs, i)
    decreases k
  {
    if k > 0 {
      CountStretch(cs, i, k - 1);
      assert cs[..k][..k - 1] == cs[..k - 1];
      InStretchIff(cs, i, k - 1);
    }
  }

  lemma InRunIs(cs: seq<Call>, i: nat)
    requires i < |cs| && NotInterleaved(cs)
    ensures InRun(cs, i) == i - StretchStart(cs, i)
  {
    CountStretch(cs, i, i);
  }

  lemma SameGroupIff(n: nat, cs: seq<Call>, i: nat, j: nat)
    requires n > 0 && i <= j < |cs| && NotInterleaved(cs)
    ensures SameGroup(n, cs, i, j) <==> cs[i].run == cs[j].run && InRun(cs, i) / n == InRun(cs, j) / n
  {
    InRunIs(cs, i);
    InRunIs(cs, j);
    InStretchIff(cs, j, i);
    if cs[i].run == cs[j].run {
      OneStretch(cs, i, j);
    }
  }

  /** When runs are not interleaved, two calls share a token exactly when they are for the same
      run and fall into the same group of `n` of it. */
  lemma {:induction false} SameTokenIffSameRun(n: nat, supply: nat, cs: seq<Call>, i: nat, j: nat)
    requires n > 0 && i <= j < |cs| && NotInterleaved(cs)
    ensures Token(n, supply, cs, i) == Token(n, supply, cs, j) <==>
            cs[i].run == cs[j].run && InRun(cs, i) / n == InRun(cs, j) / n
  {
    SameTokenIffSameGroup(n, supply, cs, i, j);
    SameGroupIff(n, cs, i, j);
  }
}
