/** The matcher and the line loop of user/grep.c, against the language a
    pattern denotes. */
module Grep {
  /** One piece of a pattern: a single character, or `c*`; '.' is any character. */
  datatype Atom = One(c: char) | Many(c: char)

  /** A pattern without its leading '^': its pieces, and whether a final '$' anchors the end. */
  datatype Pattern = Pattern(atoms: seq<Atom>, atEnd: bool)

  predicate Fits(c: char, x: char) { c == '.' || c == x }

  predicate Generates(a: Atom, w: string) {
    match a
    case One(c) => |w| == 1 && Fits(c, w[0])
    case Many(c) => forall i | 0 <= i < |w| :: Fits(c, w[i])
  }

  /** `w` belongs to the language of the concatenation of `atoms`. */
  predicate Denotes(atoms: seq<Atom>, w: string) {
    if atoms == [] then w == []
    else exists k | 0 <= k <= |w| :: Generates(atoms[0], w[..k]) && Denotes(atoms[1..], w[k..])
  }

  /** A star binds the character before it, whatever it is; '$' is an anchor
      only as the last character. */
  function Parse(re: string): Pattern {
    if re == [] then Pattern([], false)
    else if |re| >= 2 && re[1] == '*' then
      var rest := Parse(re[2..]); rest.(atoms := [Many(re[0])] + rest.atoms)
    else if re == ['$'] then Pattern([], true)
    else
      var rest := Parse(re[1..]); rest.(atoms := [One(re[0])] + rest.atoms)
  }

  /** Some prefix of `text`, all of it under a final '$', is in the language. */
  predicate MatchesHere(p: Pattern, text: string) {
    exists n | 0 <= n <= |text| :: Denotes(p.atoms, text[..n]) && (p.atEnd ==> n == |text|)
  }

  /** What `match` decides. */
  predicate Matches(re: string, text: string) {
    if re != [] && re[0] == '^' then MatchesHere(Parse(re[1..]), text)
    else exists k | 0 <= k <= |text| :: MatchesHere(Parse(re), text[k..])
  }

  /** The characters of a C string. */
  predicate NoNul(s: string) { '\0' !in s }

  lemma {:induction false} HereOne(p: Pattern, c: char, text: string)
    ensures MatchesHere(p.(atoms := [One(c)] + p.atoms), text)
            <==> text != [] && Fits(c, text[0]) && MatchesHere(p, text[1..])
  {
    var q := p.(atoms := [One(c)] + p.atoms);
    assert q.atoms[1..] == p.atoms;
    if MatchesHere(q, text) {
      var n :| 0 <= n <= |text| && Denotes(q.atoms, text[..n]) && (p.atEnd ==> n == |text|);
      var k :| 0 <= k <= n && Generates(One(c), text[..n][..k]) && Denotes(p.atoms, text[..n][k..]);
      assert text[..n][1..] == text[1..][..n - 1];
    }
    if text != [] && Fits(c, text[0]) && MatchesHere(p, text[1..]) {
      var n :| 0 <= n <= |text| - 1 && Denotes(p.atoms, text[1..][..n]) && (p.atEnd ==> n == |text| - 1);
      assert text[..n + 1][1..] == text[1..][..n];
      assert Generates(One(c), text[..n + 1][..1]);
      assert Denotes(q.atoms, text[..n + 1]);
    }
  }

  /** `c*` takes some run of fitting characters, and the rest matches after it. */
  predicate StarMatches(c: char, p: Pattern, text: string) {
    exists k | 0 <= k <= |text| :: Generates(Many(c), text[..k]) && MatchesHere(p, text[k..])
  }

  lemma {:induction false} HereMany(p: Pattern, c: char, text: string)
    ensures MatchesHere(p.(atoms := [Many(c)] + p.atoms), text) <==> StarMatches(c, p, text)
  {
    var q := p.(atoms := [Many(c)] + p.atoms);
    assert q.atoms[1..] == p.atoms;
    if MatchesHere(q, text) {
      var n :| 0 <= n <= |text| && Denotes(q.atoms, text[..n]) && (p.atEnd ==> n == |text|);
      var k :| 0 <= k <= n && Generates(Many(c), text[..n][..k]) && Denotes(p.atoms, text[..n][k..]);
      assert text[..n][..k] == text[..k];
      assert text[..n][k..] == text[k..][..n - k];
    }
    if StarMatches(c, p, text) {
      var k :| 0 <= k <= |text| && Generates(Many(c), text[..k]) && MatchesHere(p, text[k..]);
      var n :| 0 <= n <= |text| - k && Denotes(p.atoms, text[k..][..n]) && (p.atEnd ==> n == |text| - k);
      assert text[..n + k][..k] == text[..k];
      assert text[..n + k][k..] == text[k..][..n];
      assert Denotes(q.atoms, text[..n + k]);
    }
  }

  lemma HereEmpty(text: string, atEnd: bool)
    ensures MatchesHere(Pattern([], atEnd), text) <==> (atEnd ==> text == [])
  {
    assert text[..0] == [];
  }

  /** `matchhere`. */
  method MatchHere(re: string, text: string) returns (b: bool)
    requires NoNul(re) && NoNul(text)
    ensures b <==> MatchesHere(Parse(re), text)
    decreases |re|, 0, 0
  {
    if re == [] {
      HereEmpty(text, false);
      return true;
    }
    if |re| >= 2 && re[1] == '*' {
      HereMany(Parse(re[2..]), re[0], text);
      b := MatchStar(re[0], re[2..], text);
      return;
    }
    if re == ['$'] {
      HereEmpty(text, true);
      return text == [];
    }
    HereOne(Parse(re[1..]), re[0], text);
    if text != [] && (re[0] == '.' || re[0] == text[0]) {
      b := MatchHere(re[1..], text[1..]);
      return;
    }
    return false;
  }

  /** `matchstar`. */
  method MatchStar(c: char, re: string, text: string) returns (b: bool)
    requires NoNul(re) && NoNul(text)
    ensures b <==> StarMatches(c, Parse(re), text)
    decreases |re|, 1, |text|
  {
    var k := 0;
    while true
      invariant 0 <= k <= |text|
      invariant Generates(Many(c), text[..k])
      invariant forall i | 0 <= i < k :: !MatchesHere(Parse(re), text[i..])
      decreases |text| - k
    {
      var here := MatchHere(re, text[k..]);
      if here {
        return true;
      }
      if k == |text| || !(text[k] == c || c == '.') {
        assert forall i | k < i <= |text| :: text[..i][k] == text[k];
        return false;
      }
      k := k + 1;
    }
  }

  /** `match`. */
  method Match(re: string, text: string) returns (b: bool)
    requires NoNul(re) && NoNul(text)
    ensures b <==> Matches(re, text)
  {
    if re != [] && re[0] == '^' {
      b := MatchHere(re[1..], text);
      return;
    }
    var k := 0;
    while true
      invariant 0 <= k <= |text|
      invariant forall i | 0 <= i < k :: !MatchesHere(Parse(re), text[i..])
      decreases |text| - k
    {
      var here := MatchHere(re, text[k..]);
      if here {
        return true;
      }
      if k == |text| {
        return false;
      }
      k := k + 1;
    }
  }

  // ---------------------------------------------------------------- lines

  const BUFSIZE := 1024

  /** Where the first newline is, or the length when there is none. */
  function LineEnd(input: string): (k: nat)
    ensures k <= |input| && (forall i | 0 <= i < k :: input[i] != '\n') && (k < |input| ==> input[k] == '\n')
  {
    if input == [] || input[0] == '\n' then 0 else 1 + LineEnd(input[1..])
  }

  /** A line the loop can process: terminated, at most 1022 characters, no NUL. */
  predicate GoodLine(input: string) {
    LineEnd(input) < |input| && LineEnd(input) <= BUFSIZE - 2 && NoNul(input[..LineEnd(input)])
  }

  /** The matching lines before the first line that cannot be processed. */
  function Output(re: string, input: string): string
    decreases |input|
  {
    if !GoodLine(input) then []
    else
      var k := LineEnd(input);
      (if Matches(re, input[..k]) then input[..k + 1] else []) + Output(re, input[k + 1..])
  }

  /** Every matching line of the input. */
  function Every(re: string, input: string): string
    decreases |input|
  {
    var k := LineEnd(input);
    if k == |input| then []
    else (if Matches(re, input[..k]) then input[..k + 1] else []) + Every(re, input[k + 1..])
  }

  /** No terminated line is over 1022 characters or holds a NUL. */
  predicate AllGood(input: string)
    decreases |input|
  {
    LineEnd(input) == |input| || (GoodLine(input) && AllGood(input[LineEnd(input) + 1..]))
  }

  /** The output is complete for every pattern exactly when all lines are good. */
  lemma CompleteIff(input: string)
    ensures AllGood(input) <==> forall re :: Output(re, input) == Every(re, input)
  {
    if AllGood(input) {
      forall re ensures Output(re, input) == Every(re, input) {
        Complete(re, input);
      }
    } else {
      Incomplete(input);
      assert Output("", input) != Every("", input);
    }
  }

  lemma {:induction false} Complete(re: string, input: string)
    requires AllGood(input)
    ensures Output(re, input) == Every(re, input)
    decreases |input|
  {
    if LineEnd(input) < |input| {
      Complete(re, input[LineEnd(input) + 1..]);
    }
  }

  lemma {:induction false} Incomplete(input: string)
    requires !AllGood(input)
    ensures |Output("", input)| < |Every("", input)|
    decreases |input|
  {
    var k := LineEnd(input);
    HereEmpty(input[..k][0..], false);
    assert Parse("") == Pattern([], false);
    assert Matches("", input[..k]);
    if GoodLine(input) {
      Incomplete(input[k + 1..]);
    }
  }

  /** A whole line without NUL takes the first `k` characters. */
  predicate Line(s: string, k: nat) {
    k < |s| && s[k] == '\n' && forall i | 0 <= i < k :: s[i] != '\n' && s[i] != '\0'
  }

  /** No newline is in `s` before its first NUL. */
  predicate NoLine(s: string) {
    forall k | 0 <= k < |s| :: !Line(s, k)
  }

  /** With no complete line in the buffer and nothing more read, nothing more is printed. */
  lemma Stuck(re: string, rest: string, m: nat)
    requires m <= |rest| && NoLine(rest[..m]) && (m == |rest| || m == BUFSIZE - 1)
    ensures Output(re, rest) == []
  {
    var k := LineEnd(rest);
    assert k < m ==> !Line(rest[..m], k);
  }

  /** `strchr(buf + p, '\n')`: the index of the next newline before the next NUL, or -1. */
  method FindNewline(buf: array<char>, p: nat, m: nat) returns (q: int)
    requires p <= m < buf.Length && buf[m] == '\0'
    ensures q == -1 || p <= q < m
    ensures q != -1 ==> Line(buf[p..m], q - p)
    ensures q == -1 ==> NoLine(buf[p..m])
  {
    var i := p;
    while buf[i] != '\n'
      invariant p <= i <= m
      invariant forall j | p <= j < i :: buf[j] != '\n' && buf[j] != '\0'
      decreases m - i
    {
      if buf[i] == '\0' {
        forall k | 0 <= k < m - p ensures !Line(buf[p..m], k) {
          assert buf[p..m][k] == buf[p + k];
          assert i < m ==> buf[p..m][i - p] == '\0';
        }
        return -1;
      }
      i := i + 1;
    }
    q := i;
  }

  /** `data` is the input from `at` on, and `out` is what is due before `at`. */
  predicate Pending(re: string, input: string, at: nat, data: string, out: string) {
    at + |data| <= |input| && data == input[at..at + |data|] && out + Output(re, input[at..]) == Output(re, input)
  }

  /** What the line that ends at `k` prints. */
  function Printed(re: string, data: string, k: nat): string
    requires k < |data|
  {
    if Matches(re, data[..k]) then data[..k + 1] else []
  }

  lemma OutputLine(re: string, rest: string, k: nat)
    requires Line(rest, k) && k <= BUFSIZE - 2
    ensures Output(re, rest) == Printed(re, rest, k) + Output(re, rest[k + 1..])
  {
    assert LineEnd(rest) == k;
  }

  lemma LineDone(re: string, input: string, at: nat, data: string, out: string, k: nat)
    requires Pending(re, input, at, data, out) && |data| <= BUFSIZE - 1 && Line(data, k)
    ensures Pending(re, input, at + k + 1, data[k + 1..], out + Printed(re, data, k))
  {
    hide Output, Matches;
    var rest := input[at..];
    assert forall i | 0 <= i <= k :: rest[i] == data[i];
    OutputLine(re, rest, k);
    assert rest[k + 1..] == input[at + k + 1..];
    assert rest[..k] == data[..k] && rest[..k + 1] == data[..k + 1];
    var line := Printed(re, data, k);
    assert (out + line) + Output(re, input[at + k + 1..]) == out + (line + Output(re, input[at + k + 1..]));
  }

  /** `grep`: `read` may return any positive number of the bytes asked for, until
      none are left or none are asked for. */
  method Run(re: string, input: string) returns (out: string)
    requires NoNul(re)
    ensures out == Output(re, input)
  {
    hide Output, Matches, NoLine, Pending;
    var buf := new char[BUFSIZE];
    out := [];
    var m, pos := 0, 0;
    Begin(re, input);
    assert buf[..0] == [];
    while true
      invariant 0 <= m <= BUFSIZE - 1 && m <= pos <= |input|
      invariant Pending(re, input, pos - m, buf[..m], out) && NoLine(buf[..m])
      decreases |input| - pos
    {
      var n := Read(BUFSIZE - m - 1, |input| - pos);
      if n <= 0 {
        End(re, input, pos - m, buf[..m], out);
        break;
      }
      MoreData(re, input, pos - m, buf[..m], out, n);
      Append(buf, m, input[pos..pos + n]);
      m, pos := m + n, pos + n;
      ghost var data := buf[..m];
      buf[m] := '\0';
      assert buf[..m] == data;
      var p: nat;
      out, p := PrintLines(re, input, pos, buf, m, out);
      MoveDown(buf, p, m);
      m := m - p;
    }
  }

  lemma Begin(re: string, input: string)
    ensures Pending(re, input, 0, [], []) && NoLine([])
  {
    hide Output;
    assert input[0..] == input;
  }

  lemma End(re: string, input: string, at: nat, data: string, out: string)
    requires Pending(re, input, at, data, out) && NoLine(data) && (at + |data| == |input| || |data| == BUFSIZE - 1)
    ensures out == Output(re, input)
  {
    hide Output;
    assert input[at..][..|data|] == data;
    Stuck(re, input[at..], |data|);
  }

  lemma MoreData(re: string, input: string, at: nat, data: string, out: string, n: nat)
    requires Pending(re, input, at, data, out) && at + |data| + n <= |input|
    ensures Pending(re, input, at, data + input[at + |data|..at + |data| + n], out)
  {
    hide Output;
  }

  /** The bytes a `read` stores at the end of the buffer. */
  method Append(buf: array<char>, m: nat, bytes: string)
    requires m + |bytes| < buf.Length
    modifies buf
    ensures buf[..m + |bytes|] == old(buf[..m]) + bytes
  {
    forall i | 0 <= i < |bytes| {
      buf[m + i] := bytes[i];
    }
  }

  /** `memmove`. */
  method MoveDown(buf: array<char>, p: nat, m: nat)
    requires p <= m <= buf.Length
    modifies buf
    ensures buf[..m - p] == old(buf[p..m])
  {
    forall i | 0 <= i < m - p {
      buf[i] := buf[p + i];
    }
  }

  /** How many bytes `read` gives for a request when `left` are left. */
  method Read(count: nat, left: nat) returns (n: nat)
    ensures n <= count && n <= left && (n == 0 <==> count == 0 || left == 0)
  {
    if count == 0 || left == 0 {
      return 0;
    }
    n :| 1 <= n <= count && n <= left;
  }

  /** The inner loop: print the matching lines of the buffer. */
  method PrintLines(re: string, ghost input: string, ghost pos: nat, buf: array<char>, m: nat, was: string)
    returns (out: string, p: nat)
    requires NoNul(re) && m < buf.Length == BUFSIZE && buf[m] == '\0' && m <= pos
    requires Pending(re, input, pos - m, buf[..m], was)
    modifies buf
    ensures p <= m && Pending(re, input, pos - m + p, buf[p..m], out) && NoLine(buf[p..m])
  {
    hide Output, Matches, Pending;
    out, p := was, 0;
    assert buf[..m] == buf[0..m];
    while true
      invariant p <= m && buf[m] == '\0'
      invariant Pending(re, input, pos - m + p, buf[p..m], out)
      decreases m - p
    {
      var q := FindNewline(buf, p, m);
      if q == -1 {
        break;
      }
      ghost var data := buf[p..m];
      LineDone(re, input, pos - m + p, data, out, q - p);
      buf[q] := '\0';
      ghost var line := data[..q - p];
      assert forall i | 0 <= i < q - p :: buf[p..q][i] == data[i];
      assert buf[p..q] == line;
      var b := Match(re, buf[p..q]);
      if b {
        buf[q] := '\n';
        assert buf[p..q + 1] == data[..q - p + 1];
        out := out + buf[p..q + 1];
      } else {
        assert out + [] == out;
      }
      assert buf[q + 1..m] == data[q - p + 1..];
      p := q + 1;
    }
  }
}
