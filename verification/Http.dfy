/** Text helpers, and the line and header reader the handshakes share. */
module Http {
  import opened Bytes

  const CRLF: string := "\r\n"

  /** The first position of `c` at or after `from`, or the end. */
  function Find(s: string, c: char, from: nat): (r: nat)
    requires from <= |s|
    ensures from <= r <= |s| && (r < |s| ==> s[r] == c)
    ensures forall i :: from <= i < r ==> s[i] != c
    decreases |s| - from
  {
    if from == |s| || s[from] == c then from else Find(s, c, from + 1)
  }

  lemma {:induction false} FindIs(s: string, c: char, from: nat, r: nat)
    requires from <= r <= |s| && (r < |s| ==> s[r] == c)
    requires forall i :: from <= i < r ==> s[i] != c
    ensures Find(s, c, from) == r
  {
  }

  predicate Free(s: string, c: char) {
    forall i :: 0 <= i < |s| ==> s[i] != c
  }

  // ------------------------------------------------------------ header lines

  datatype Block = Unfinished | Block(lines: seq<string>, length: nat)

  function Prepend(lines: seq<string>, b: Block): Block {
    if b.Unfinished? then b else Block(lines + b.lines, b.length)
  }

  /** A position where a line can start. */
  predicate LineStart(s: string, at: nat) {
    at <= |s| && (at == 0 || s[at - 1] == '\n')
  }

  /** Where the text of the line that starts at `from` and whose LF is at `e` stops. */
  function LineStop(s: string, from: nat, e: nat): (r: nat)
    requires LineStart(s, from) && from <= e < |s|
    ensures from <= r <= e
  {
    if e != 0 && s[e - 1] == '\r' then e - 1 else e
  }

  /** The lines up to the first empty one, and the position after it. */
  function Lines(s: string, from: nat): (b: Block)
    requires LineStart(s, from)
    ensures b.Block? ==> from < b.length <= |s|
    decreases |s| - from
  {
    var e := Find(s, '\n', from);
    if e == |s| then Unfinished
    else
      var line := s[from..LineStop(s, from, e)];
      if line == "" then Block([], e + 1) else Prepend([line], Lines(s, e + 1))
  }

  lemma {:induction false} PrependOne(lines: seq<string>, line: string, b: Block)
    ensures Prepend(lines, Prepend([line], b)) == Prepend(lines + [line], b)
  {
    if b.Block? {
      assert lines + ([line] + b.lines) == (lines + [line]) + b.lines;
    }
  }

  /** One line of a block. */
  lemma {:induction false} LinesStep(s: string, from: nat, e: nat)
    requires LineStart(s, from) && e == Find(s, '\n', from) && e < |s|
    ensures var line := s[from..LineStop(s, from, e)];
            Lines(s, from) == if line == "" then Block([], e + 1) else Prepend([line], Lines(s, e + 1))
  {
  }

  lemma {:induction false} NoLines(s: string, from: nat)
    requires LineStart(s, from) && Find(s, '\n', from) == |s|
    ensures Lines(s, from) == Unfinished
  {
  }

  method ParseHttpLines(buffer: string) returns (length: nat, lines: seq<string>)
    ensures length == 0 <==> Lines(buffer, 0).Unfinished?
    ensures length > 0 ==> Lines(buffer, 0) == Block(lines, length)
  {
    hide Lines;
    lines := [];
    var cur := 0;
    ghost var goal := Lines(buffer, 0);
    while true
      invariant LineStart(buffer, cur) && goal == Prepend(lines, Lines(buffer, cur))
      decreases |buffer| - cur
    {
      var last := cur;
      cur := Find(buffer, '\n', cur);
      if cur == |buffer| {
        NoLines(buffer, last);
        return 0, lines;
      }
      LinesStep(buffer, last, cur);
      var line := buffer[last..LineStop(buffer, last, cur)];
      cur := cur + 1;
      if line == "" {
        assert lines + [] == lines;
        break;
      }
      PrependOne(lines, line, Lines(buffer, cur));
      lines := lines + [line];
    }
    length := cur;
  }

  lemma {:induction false} SameLine(s: string, t: string, from: nat, e: nat)
    requires LineStart(s, from) && e == Find(s, '\n', from) && e < |s|
    ensures LineStart(s + t, from) && Find(s + t, '\n', from) == e
    ensures LineStop(s + t, from, e) == LineStop(s, from, e)
    ensures (s + t)[from..LineStop(s, from, e)] == s[from..LineStop(s, from, e)]
  {
    FindIs(s + t, '\n', from, e);
    SliceOfPrefix(s, t, from, LineStop(s, from, e));
  }

  /** More input never changes a finished block. */
  lemma {:induction false} LinesExtend(s: string, t: string, from: nat)
    requires LineStart(s, from) && Lines(s, from).Block?
    ensures LineStart(s + t, from) && Lines(s + t, from) == Lines(s, from)
    decreases |s| - from
  {
    hide Find;
    var e := Find(s, '\n', from);
    SameLine(s, t, from, e);
    LinesStep(s, from, e);
    LinesStep(s + t, from, e);
    if LineStop(s, from, e) != from {
      LinesExtend(s, t, e + 1);
    }
  }

  lemma {:induction false} SliceOfPrefix(s: string, t: string, i: nat, j: nat)
    requires i <= j <= |s|
    ensures (s + t)[i..j] == s[i..j]
  {
  }

  lemma {:induction false} NoLine(s: string, from: nat, e: nat, k: nat)
    requires LineStart(s, from) && e == Find(s, '\n', from) && from <= k <= e
    ensures LineStart(s[..k], from) && Lines(s[..k], from) == Unfinished
  {
    FindIs(s[..k], '\n', from, k);
  }

  lemma {:induction false} CutLine(s: string, from: nat, e: nat, k: nat)
    requires LineStart(s, from) && e == Find(s, '\n', from) && e < k <= |s|
    ensures LineStart(s[..k], from) && Find(s[..k], '\n', from) == e && LineStop(s[..k], from, e) == LineStop(s, from, e)
    ensures s[..k][from..LineStop(s, from, e)] == s[from..LineStop(s, from, e)]
  {
    FindIs(s[..k], '\n', from, e);
  }

  /** A proper prefix of a finished block is never finished. */
  lemma {:induction false} LinesOfPrefix(s: string, from: nat, k: nat)
    requires LineStart(s, from) && Lines(s, from).Block? && from <= k < Lines(s, from).length
    ensures LineStart(s[..k], from) && Lines(s[..k], from) == Unfinished
    decreases |s| - from
  {
    var e := Find(s, '\n', from);
    if k <= e {
      NoLine(s, from, e, k);
    } else {
      CutLine(s, from, e, k);
      LinesStep(s, from, e);
      LinesStep(s[..k], from, e);
      LinesOfPrefix(s, e + 1, k);
    }
  }

  /** Lines joined the way both handshakes write them. */
  function Join(lines: seq<string>): string {
    if lines == [] then CRLF else lines[0] + CRLF + Join(lines[1..])
  }

  predicate Plain(lines: seq<string>) {
    forall i :: 0 <= i < |lines| ==> lines[i] != "" && Free(lines[i], '\n')
  }

  /** Reading inverts writing, wherever the block stands in the text. */
  lemma {:induction false} LinesOfJoin(s: string, p: nat, lines: seq<string>)
    requires LineStart(s, p) && Plain(lines)
    requires p + |Join(lines)| <= |s| && s[p..p + |Join(lines)|] == Join(lines)
    ensures Lines(s, p) == Block(lines, p + |Join(lines)|)
    decreases |lines|
  {
    hide Lines;
    if lines == [] {
      SliceOfSlice(s, p, p + 2, 0, 1);
      assert s[p] == s[p..p + 2][0] && s[p + 1] == s[p..p + 2][1];
      EmptyLine(s, p);
    } else {
      SplitJoin(s, p, lines[0], lines[1..]);
      PlainTail(lines);
      LinesOfJoin(s, p + |lines[0]| + 2, lines[1..]);
      FirstOfJoin(s, p, lines[0], lines[1..]);
      assert [lines[0]] + lines[1..] == lines;
    }
  }

  lemma {:induction false} FirstOfJoin(s: string, p: nat, l: string, tail: seq<string>)
    requires LineStart(s, p) && l != "" && Free(l, '\n') && p + |l| + 1 < |s|
    requires s[p..p + |l|] == l && s[p + |l|] == '\r' && s[p + |l| + 1] == '\n'
    requires Lines(s, p + |l| + 2) == Block(tail, p + |l| + 2 + |Join(tail)|)
    ensures Lines(s, p) == Block([l] + tail, p + |l| + 2 + |Join(tail)|)
  {
    LineThen(s, p, p + |l|, tail, p + |l| + 2 + |Join(tail)|);
  }

  lemma {:induction false} PlainTail(lines: seq<string>)
    requires Plain(lines) && lines != []
    ensures Plain(lines[1..]) && lines[0] != "" && Free(lines[0], '\n')
  {
  }

  /** A piece of text is cut where its parts are. */
  lemma {:induction false} SplitSlice(s: string, p: nat, a: string, b: string, c: string)
    requires p + |a| + |b| + |c| <= |s| && s[p..p + |a| + |b| + |c|] == a + b + c
    ensures s[p..p + |a|] == a && s[p + |a|..p + |a| + |b|] == b && s[p + |a| + |b|..p + |a| + |b| + |c|] == c
  {
    var q := p + |a| + |b| + |c|;
    SliceOfSlice(s, p, q, 0, |a|);
    SliceOfSlice(s, p, q, |a|, |a| + |b|);
    SliceOfSlice(s, p, q, |a| + |b|, |a| + |b| + |c|);
    assert (a + b + c)[..|a|] == a && (a + b + c)[|a|..|a| + |b|] == b && (a + b + c)[|a| + |b|..] == c;
  }

  lemma {:induction false} SliceOfSlice(s: string, p: nat, q: nat, i: nat, j: nat)
    requires p <= q <= |s| && i <= j <= q - p
    ensures s[p..q][i..j] == s[p + i..p + j]
  {
    forall k | 0 <= k < j - i ensures s[p..q][i..j][k] == s[p + i..p + j][k] {
    }
  }

  lemma {:induction false} SplitJoin(s: string, p: nat, l: string, tail: seq<string>)
    requires var j := Join(tail); p + |l| + 2 + |j| <= |s| && s[p..p + |l| + 2 + |j|] == l + CRLF + j
    ensures s[p..p + |l|] == l && s[p + |l|] == '\r' && s[p + |l| + 1] == '\n'
    ensures s[p + |l| + 2..p + |l| + 2 + |Join(tail)|] == Join(tail)
  {
    SplitSlice(s, p, l, CRLF, Join(tail));
    var at := s[p + |l|..p + |l| + 2];
    assert at[0] == s[p + |l|] && at[1] == s[p + |l| + 1];
  }

  lemma {:induction false} EmptyLine(s: string, p: nat)
    requires LineStart(s, p) && p + 1 < |s| && s[p] == '\r' && s[p + 1] == '\n'
    ensures Lines(s, p) == Block([], p + 2)
  {
    FindIs(s, '\n', p, p + 1);
  }

  lemma {:induction false} LineThen(s: string, p: nat, q: nat, tail: seq<string>, n: nat)
    requires LineStart(s, p) && p < q && q + 1 < |s|
    requires s[q] == '\r' && s[q + 1] == '\n' && Free(s[p..q], '\n')
    requires Lines(s, q + 2) == Block(tail, n)
    ensures Lines(s, p) == Block([s[p..q]] + tail, n)
  {
    forall i | p <= i < q ensures s[i] != '\n' {
      assert s[i] == s[p..q][i - p];
    }
    FindIs(s, '\n', p, q + 1);
  }

  // ------------------------------------------------------------------ headers

  function ToLower(c: char): char {
    if 'A' <= c <= 'Z' then c - 'A' + 'a' else c
  }

  function Lower(s: string): (r: string)
    ensures |r| == |s|
  {
    seq(|s|, i requires 0 <= i < |s| => ToLower(s[i]))
  }

  function FindNot(s: string, c: char, from: nat): (r: nat)
    requires from <= |s|
    ensures from <= r <= |s| && (r < |s| ==> s[r] != c)
    ensures forall i :: from <= i < r ==> s[i] == c
    decreases |s| - from
  {
    if from == |s| || s[from] != c then from else FindNot(s, c, from + 1)
  }

  /** A key in lower case and its value without leading blanks; a line with no colon is kept whole. */
  function HeaderOf(line: string): (string, string) {
    var pos := Find(line, ':', 0);
    if pos == |line| then (line, "")
    else (Lower(line[..pos]), line[FindNot(line, ' ', pos + 1)..])
  }

  function HeadersOf(lines: seq<string>): (r: seq<(string, string)>)
    ensures |r| == |lines|
  {
    seq(|lines|, i requires 0 <= i < |lines| => HeaderOf(lines[i]))
  }

  method ParseHttpHeaders(lines: seq<string>) returns (headers: seq<(string, string)>)
    ensures headers == HeadersOf(lines)
  {
    headers := [];
    for n := 0 to |lines|
      invariant headers == HeadersOf(lines[..n])
    {
      var line := lines[n];
      assert HeadersOf(lines[..n + 1]) == HeadersOf(lines[..n]) + [HeaderOf(line)];
      var pos := Find(line, ':', 0);
      if pos != |line| {
        var key := line[..pos];
        var value := "";
        var subPos := FindNot(line, ' ', pos + 1);
        assert subPos == |line| ==> line[subPos..] == "";
        if subPos != |line| {
          value := line[subPos..];
        }
        key := Lower(key);
        headers := headers + [(key, value)];
      } else {
        headers := headers + [(line, "")];
      }
    }
    assert lines[..|lines|] == lines;
  }

  /** The first header with this key, in the order of the lines. */
  function Lookup(headers: seq<(string, string)>, key: string): Option<string> {
    if headers == [] then None
    else if headers[0].0 == key then Some(headers[0].1)
    else Lookup(headers[1..], key)
  }

  predicate NoLeadingBlank(s: string) {
    s == "" || s[0] != ' '
  }

  /** A header written as "Name: value" is read back. */
  lemma {:induction false} HeaderRoundTrip(name: string, value: string)
    requires Free(name, ':') && NoLeadingBlank(value)
    ensures HeaderOf(name + ": " + value) == (Lower(name), value)
  {
    var line := name + ": " + value;
    FindIs(line, ':', 0, |name|);
    assert line[..|name|] == name;
    assert line[|name| + 1] == ' ' && line[|name| + 2..] == value;
    assert value != "" ==> line[|name| + 2] == value[0];
    assert FindNot(line, ' ', |name| + 1) == FindNot(line, ' ', |name| + 2) == |name| + 2;
  }

  function Blanks(n: nat): (s: string)
    ensures |s| == n && forall i :: 0 <= i < n ==> s[i] == ' '
  {
    if n == 0 then "" else " " + Blanks(n - 1)
  }

  /** Any number of blanks may come after the colon; a line without one is a key with no value. */
  lemma {:induction false} HeaderWithBlanks(name: string, n: nat, value: string)
    requires Free(name, ':')
    ensures NoLeadingBlank(value) ==> HeaderOf(name + ":" + Blanks(n) + value) == (Lower(name), value)
    ensures HeaderOf(name) == (name, "")
  {
    hide Lower;
    var line := name + ":" + Blanks(n) + value;
    FindIs(line, ':', 0, |name|);
    assert line[..|name|] == name;
    if NoLeadingBlank(value) {
      assert forall i :: 0 <= i < n ==> line[|name| + 1 + i] == Blanks(n)[i];
      assert value != "" ==> line[|name| + 1 + n] == value[0];
      assert line[|name| + 1 + n..] == value;
      BlanksEnd(line, |name| + 1, |name| + 1 + n);
    }
    NoneFound(name, ':', 0);
  }

  lemma {:induction false} BlanksEnd(s: string, from: nat, to: nat)
    requires from <= to <= |s| && (forall i :: from <= i < to ==> s[i] == ' ') && (to < |s| ==> s[to] != ' ')
    ensures FindNot(s, ' ', from) == to
    decreases |s| - from
  {
    if from < to {
      BlanksEnd(s, from + 1, to);
    }
  }

  lemma {:induction false} NoneFound(s: string, c: char, from: nat)
    requires from <= |s| && Free(s, c)
    ensures Find(s, c, from) == |s|
    decreases |s| - from
  {
    if from < |s| {
      NoneFound(s, c, from + 1);
    }
  }

  // ---------------------------------------------------------- request methods

  predicate Capital(c: char) {
    'A' <= c <= 'Z'
  }

  /** At most eight capitals, followed by a blank or by nothing yet. */
  predicate LooksLikeRequest(s: string) {
    exists n :: 0 <= n <= 8 && n <= |s| && RequestPrefix(s, n)
  }

  predicate RequestPrefix(s: string, n: nat)
    requires n <= |s|
  {
    && (forall i :: 0 <= i < n ==> Capital(s[i]))
    && (n == |s| || (n > 0 && s[n] == ' '))
  }

  method IsHttpRequest(s: string) returns (r: bool)
    ensures r == LooksLikeRequest(s)
  {
    var i := 0;
    while i < |s|
      invariant 0 <= i <= |s| && i <= 8
      invariant forall j :: 0 <= j < i ==> Capital(s[j])
    {
      var c := s[i];
      if i > 0 && c == ' ' {
        assert RequestPrefix(s, i);
        return true;
      } else if i >= 8 || c < 'A' || c > 'Z' {
        forall n | 0 <= n <= 8 && n <= |s| ensures !RequestPrefix(s, n) {
          if n > i { assert !Capital(s[i]); } else if n < i { assert Capital(s[n]); }
        }
        return false;
      }
      i := i + 1;
    }
    assert RequestPrefix(s, i);
    return true;
  }

  /** A prefix of what looks like a request looks like one; past the first blank nothing can change. */
  lemma {:induction false} RequestPrefixes(s: string, t: string)
    ensures LooksLikeRequest(s + t) ==> LooksLikeRequest(s)
    ensures LooksLikeRequest(s) && !Free(s, '\n') ==> LooksLikeRequest(s + t)
  {
    if LooksLikeRequest(s + t) {
      var n: nat :| 0 <= n <= 8 && n <= |s + t| && RequestPrefix(s + t, n);
      var m := Min(n, |s|);
      assert forall i :: 0 <= i < m ==> s[i] == (s + t)[i];
      assert m < |s| ==> s[m] == (s + t)[m];
      assert RequestPrefix(s, m);
    }
    if LooksLikeRequest(s) && !Free(s, '\n') {
      var n: nat :| 0 <= n <= 8 && n <= |s| && RequestPrefix(s, n);
      var i :| 0 <= i < |s| && s[i] == '\n';
      assert i >= n;
      assert forall j :: 0 <= j <= n ==> s[j] == (s + t)[j];
      assert RequestPrefix(s + t, n);
    }
  }

  // ---------------------------------------------------- lists in one header

  /** std::getline: a delimiter at the very end does not start another token. */
  function Explode(s: string, delim: char): seq<string>
    decreases |s|
  {
    if s == "" then []
    else
      var e := Find(s, delim, 0);
      if e == |s| then [s] else [s[..e]] + Explode(s[e + 1..], delim)
  }

  method ExplodeLoop(str: string, delim: char) returns (result: seq<string>)
    ensures result == Explode(str, delim)
  {
    result := [];
    var ss := str;
    while ss != ""
      invariant Explode(str, delim) == result + Explode(ss, delim)
      decreases |ss|
    {
      var e := Find(ss, delim, 0);
      assert e == |ss| ==> ss[..e] == ss;
      result := result + [ss[..e]];
      ss := if e == |ss| then "" else ss[e + 1..];
    }
  }

  /** Each token followed by the delimiter. */
  function Terminated(tokens: seq<string>, delim: char): string {
    if tokens == [] then "" else tokens[0] + [delim] + Terminated(tokens[1..], delim)
  }

  function Implode(tokens: seq<string>, delim: char): string {
    var t := Terminated(tokens, delim);
    if t == "" then "" else t[..|t| - 1]
  }

  predicate Listable(tokens: seq<string>, delim: char) {
    (forall t | t in tokens :: Free(t, delim)) && (tokens != [] ==> tokens[|tokens| - 1] != "")
  }

  lemma {:induction false} ImplodeStep(tokens: seq<string>, delim: char)
    requires |tokens| > 1
    ensures Implode(tokens, delim) == tokens[0] + [delim] + Implode(tokens[1..], delim)
  {
    var t := Terminated(tokens[1..], delim);
    assert t != "";
    assert Terminated(tokens, delim) == tokens[0] + [delim] + t;
  }

  /** A token list survives the header exactly when no token holds the delimiter and the last is not empty. */
  lemma {:induction false} ExplodeOfImplode(tokens: seq<string>, delim: char)
    ensures Explode(Implode(tokens, delim), delim) == tokens <==> Listable(tokens, delim)
  {
    ExplodeShape(Implode(tokens, delim), delim);
    if Listable(tokens, delim) {
      ExplodeInverts(tokens, delim);
    } else if forall t | t in tokens :: Free(t, delim) {
      LosesEmptyLast(tokens, delim);
    }
  }

  lemma {:induction false} ExplodeShape(s: string, delim: char)
    ensures forall t | t in Explode(s, delim) :: Free(t, delim)
    decreases |s|
  {
    if s != "" {
      var e := Find(s, delim, 0);
      if e < |s| {
        ExplodeShape(s[e + 1..], delim);
        assert Free(s[..e], delim);
      }
    }
  }

  lemma {:induction false} ExplodeInverts(tokens: seq<string>, delim: char)
    requires Listable(tokens, delim)
    ensures Explode(Implode(tokens, delim), delim) == tokens
  {
    if |tokens| == 1 {
      var t := tokens[0];
      assert Terminated(tokens[1..], delim) == "";
      assert Implode(tokens, delim) == t;
      assert t in tokens;
      FindIs(t, delim, 0, |t|);
    } else if |tokens| > 1 {
      ExplodeHead(tokens, delim);
      ExplodeInverts(tokens[1..], delim);
    }
  }

  lemma {:induction false} ExplodeHead(tokens: seq<string>, delim: char)
    requires |tokens| > 1 && Free(tokens[0], delim)
    ensures Explode(Implode(tokens, delim), delim) == [tokens[0]] + Explode(Implode(tokens[1..], delim), delim)
  {
    ImplodeStep(tokens, delim);
    var t, rest := tokens[0], Implode(tokens[1..], delim);
    var s := t + [delim] + rest;
    FindIs(s, delim, 0, |t|);
    assert s[..|t|] == t && s[|t| + 1..] == rest;
  }

  lemma {:induction false} LosesEmptyLast(tokens: seq<string>, delim: char)
    requires tokens != [] && tokens[|tokens| - 1] == "" && forall t | t in tokens :: Free(t, delim)
    ensures |Explode(Implode(tokens, delim), delim)| < |tokens|
  {
    if |tokens| > 1 {
      assert tokens[0] in tokens;
      ExplodeHead(tokens, delim);
      LosesEmptyLast(tokens[1..], delim);
    } else {
      assert Terminated(tokens[1..], delim) == "";
      assert Implode(tokens, delim) == "";
    }
  }

  // ------------------------------------------------ words of the first line

  predicate IsSpace(c: char) {
    c == ' ' || ('\t' <= c && c <= '\r')
  }

  function SkipSpace(s: string): string {
    if s != "" && IsSpace(s[0]) then SkipSpace(s[1..]) else s
  }

  /** One `stream >> word`: the word and what is left. */
  function WordEnd(s: string): (n: nat)
    ensures n <= |s|
  {
    if s == "" || IsSpace(s[0]) then 0 else 1 + WordEnd(s[1..])
  }

  function Word(s: string): (string, string) {
    var t := SkipSpace(s);
    (t[..WordEnd(t)], t[WordEnd(t)..])
  }

  predicate OneWord(w: string) {
    w != "" && forall i :: 0 <= i < |w| ==> !IsSpace(w[i])
  }

  lemma {:induction false} WordEndOf(w: string, rest: string)
    requires forall i :: 0 <= i < |w| ==> !IsSpace(w[i])
    requires rest == "" || IsSpace(rest[0])
    ensures WordEnd(w + rest) == |w|
  {
    if w == "" {
      assert w + rest == rest;
    } else {
      assert (w + rest)[1..] == w[1..] + rest;
      WordEndOf(w[1..], rest);
    }
  }

  lemma {:induction false} WordOf(w: string, rest: string)
    requires OneWord(w) && (rest == "" || IsSpace(rest[0]))
    ensures Word(w + rest) == (w, rest) && Word(" " + (w + rest)) == (w, rest)
  {
    WordEndOf(w, rest);
    assert SkipSpace(w + rest) == w + rest;
    assert (" " + (w + rest))[1..] == w + rest;
    assert SkipSpace(" " + (w + rest)) == w + rest;
  }
}
