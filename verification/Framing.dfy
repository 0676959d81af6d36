/** The line framing of RPC messages: the server writes one message per line, the client reads
    line by line and drops a line that the end of the stream cut short. */
module Framing {
  import opened Common
  import opened Text

  predicate NoNewline(m: string) {
    forall i :: 0 <= i < |m| ==> m[i] != '\n'
  }

  /** The characters that encoding a list of messages puts on the wire. */
  function Stream(ms: seq<string>): string {
    if ms == [] then [] else ms[0] + ['\n'] + Stream(ms[1..])
  }

  class Encoder {
    var dst: string

    constructor ()
      ensures dst == []
    {
      dst := [];
    }

    /** `json` is the serialised item. */
    method Encode(json: string)
      modifies this
      ensures dst == old(dst) + json + ['\n']
    {
      dst := dst + json;
      dst := dst + ['\n'];
    }

    method EncodeAll(ms: seq<string>)
      modifies this
      ensures dst == old(dst) + Stream(ms)
    {
      var i := 0;
      while i < |ms|
        invariant 0 <= i <= |ms|
        invariant dst + Stream(ms[i..]) == old(dst) + Stream(ms)
      {
        assert ms[i..][1..] == ms[i + 1..];
        assert dst + ms[i] + ['\n'] + Stream(ms[i + 1..]) == dst + (ms[i] + ['\n'] + Stream(ms[i + 1..]));
        Encode(ms[i]);
        i := i + 1;
      }
    }
  }

  /** How many characters the next line has, with its newline if there is one. */
  function LineLength(s: string): (n: nat)
    ensures n <= |s|
    ensures s != [] ==> n > 0
    ensures forall i :: 0 <= i < n - 1 ==> s[i] != '\n'
    ensures n > 0 && s[n - 1] != '\n' ==> n == |s|
  {
    if s == [] then 0 else if s[0] == '\n' then 1 else 1 + LineLength(s[1..])
  }

  predicate WholeLine(s: string) {
    s != [] && s[|s| - 1] == '\n'
  }

  lemma {:induction false} LineLengthIs(s: string, n: nat)
    requires n <= |s| && forall i :: 0 <= i < n - 1 ==> s[i] != '\n'
    requires n > 0 || s == []
    requires n > 0 && s[n - 1] != '\n' ==> n == |s|
    ensures LineLength(s) == n
  {
    if n > 1 && s[0] != '\n' {
      LineLengthIs(s[1..], n - 1);
    }
  }

  function Read(rest: string): (Option<string>, string) {
    var n := LineLength(rest);
    (if WholeLine(rest[..n]) then Some(rest[..n]) else None, rest[n..])
  }

  function Messages(rest: string): seq<string>
    decreases |rest|
  {
    var (r, left) := Read(rest);
    if r.None? then [] else [r.value] + Messages(left)
  }

  class Reader {
    var rest: string

    constructor (backend: string)
      ensures rest == backend
    {
      rest := backend;
    }

    /** `BufRead::read_line`: consume up to and including a newline, or up to the end. */
    method ReadLine() returns (s: string)
      modifies this
      ensures s == old(rest)[..LineLength(old(rest))]
      ensures rest == old(rest)[LineLength(old(rest))..]
    {
      s := [];
      ghost var all := rest;
      while rest != []
        invariant all == s + rest && NoNewline(s)
        decreases |rest|
      {
        var c := rest[0];
        s := s + [c];
        rest := rest[1..];
        if c == '\n' {
          LineLengthIs(all, |s|);
          return;
        }
      }
      LineLengthIs(all, |s|);
    }

    /** The next message, or None at the end of the stream. */
    method ReadMsg() returns (r: Option<string>)
      modifies this
      ensures (r, rest) == Read(old(rest))
    {
      var s := ReadLine();
      if s == [] {
        return None;
      }
      r := if s[|s| - 1] == '\n' then Some(s) else None;
    }

    /** Read messages until there is none. */
    method ReadAll() returns (ms: seq<string>)
      modifies this
      ensures ms == Messages(old(rest)) && rest == []
    {
      ms := [];
      ghost var all := rest;
      while true
        invariant Messages(all) == ms + Messages(rest)
        decreases |rest|
      {
        var r := ReadMsg();
        if r.None? {
          return;
        }
        ms := ms + [r.value];
      }
    }
  }

  /** The messages as the reader hands them over: each with its newline. */
  function Lines(ms: seq<string>): seq<string> {
    if ms == [] then [] else [ms[0] + ['\n']] + Lines(ms[1..])
  }

  /** How many messages lie whole within the first `n` characters of the stream. */
  function Survivors(ms: seq<string>, n: nat): (k: nat)
    ensures k <= |ms|
  {
    if ms == [] || n < |ms[0]| + 1 then 0 else 1 + Survivors(ms[1..], n - |ms[0]| - 1)
  }

  /** That number, without the recursion: the largest `k` whose encoding fits. */
  lemma {:induction false} SurvivorsIs(ms: seq<string>, n: nat, k: nat)
    requires k <= |ms|
    ensures k <= Survivors(ms, n) <==> |Stream(ms[..k])| <= n
  {
    if k > 0 {
      assert ms[..k][1..] == ms[1..][..k - 1];
      if n >= |ms[0]| + 1 {
        SurvivorsIs(ms[1..], n - |ms[0]| - 1, k - 1);
      }
    }
  }

  ghost predicate Clean(ms: seq<string>) {
    forall i :: 0 <= i < |ms| ==> NoNewline(ms[i])
  }

  lemma FirstMessage(m: string, tail: string)
    requires NoNewline(m)
    ensures Messages(m + ['\n'] + tail) == [m + ['\n']] + Messages(tail)
  {
    var s, line := m + ['\n'] + tail, m + ['\n'];
    assert s == line + tail;
    assert s[|m|] == '\n';
    LineLengthIs(s, |line|);
    assert s[..|line|] == line && s[|line|..] == tail;
  }

  lemma CutAfterFirst(ms: seq<string>, n: nat)
    requires ms != [] && |ms[0]| + 1 <= n <= |Stream(ms)|
    ensures Stream(ms)[..n] == ms[0] + ['\n'] + Stream(ms[1..])[..n - |ms[0]| - 1]
  {
  }

  lemma CutInFirst(ms: seq<string>, n: nat)
    requires Clean(ms) && n <= |Stream(ms)| && (ms == [] || n < |ms[0]| + 1)
    ensures NoNewline(Stream(ms)[..n])
  {
    if ms != [] {
      assert Stream(ms)[..n] == ms[0][..n];
    }
  }

  /** A line that was cut short is dropped. */
  lemma CutLine(s: string)
    requires NoNewline(s)
    ensures Messages(s) == []
  {
    LineLengthIs(s, |s|);
  }

  /** For every cut of the stream, the reader gives exactly the messages whose whole line
      survived, in order, and then the end. */
  lemma {:induction false} TruncatedStream(ms: seq<string>, n: nat)
    requires Clean(ms) && n <= |Stream(ms)|
    ensures Messages(Stream(ms)[..n]) == Lines(ms[..Survivors(ms, n)])
  {
    if ms == [] || n < |ms[0]| + 1 {
      CutInFirst(ms, n);
      CutLine(Stream(ms)[..n]);
    } else {
      var left := n - |ms[0]| - 1;
      CutAfterFirst(ms, n);
      FirstMessage(ms[0], Stream(ms[1..])[..left]);
      TruncatedStream(ms[1..], left);
      assert ms[..Survivors(ms, n)][1..] == ms[1..][..Survivors(ms[1..], left)];
    }
  }

  // ---- When framing works ----

  function Newlines(s: string): nat {
    Count(s, '\n')
  }

  lemma NoNewlineIff(m: string)
    ensures NoNewline(m) <==> Newlines(m) == 0
  {
    CountZero(m, '\n');
  }

  lemma {:induction false} OneMessagePerNewline(s: string)
    ensures |Messages(s)| == Newlines(s)
    decreases |s|
  {
    var n := LineLength(s);
    assert s == s[..n] + s[n..];
    CountConcat(s[..n], s[n..], '\n');
    if n > 0 {
      CountConcat(s[..n - 1], [s[n - 1]], '\n');
      assert s[..n] == s[..n - 1] + [s[n - 1]];
      NoNewlineIff(s[..n - 1]);
      if s[n - 1] == '\n' {
        OneMessagePerNewline(s[n..]);
      }
    }
  }

  lemma {:induction false} StreamNewlines(ms: seq<string>)
    ensures Newlines(Stream(ms)) >= |ms| == |Lines(ms)|
    ensures Newlines(Stream(ms)) == |ms| ==> Clean(ms)
  {
    if ms != [] {
      StreamNewlines(ms[1..]);
      CountConcat(ms[0] + ['\n'], Stream(ms[1..]), '\n');
      CountConcat(ms[0], ['\n'], '\n');
      NoNewlineIff(ms[0]);
      assert ms == [ms[0]] + ms[1..];
    }
  }

  lemma {:induction false} CleanRoundTrip(ms: seq<string>)
    requires Clean(ms)
    ensures Messages(Stream(ms)) == Lines(ms)
  {
    if ms == [] {
      CutLine([]);
    } else {
      FirstMessage(ms[0], Stream(ms[1..]));
      CleanRoundTrip(ms[1..]);
    }
  }

  /** The round trip works exactly for newline-free messages, as the encoder's assertion asks. */
  lemma {:induction false} RoundTripIffClean(ms: seq<string>)
    ensures Messages(Stream(ms)) == Lines(ms) <==> Clean(ms)
  {
    OneMessagePerNewline(Stream(ms));
    StreamNewlines(ms);
    if Clean(ms) {
      CleanRoundTrip(ms);
    }
  }
}
