/** The string operations that the parsers of sparkscope/parsers.py use. */
module Text {

  // ---------------------------------------------------------------- split and join

  /** `text.split(mark)`. */
  function Split(text: string, mark: char): (parts: seq<string>)
    ensures parts != []
  {
    if text == "" then [""]
    else
      var n := |text| - 1;
      var front := Split(text[..n], mark);
      if text[n] == mark then front + [""]
      else front[|front| - 1 := front[|front| - 1] + [text[n]]]
  }

  /** `mark.join(parts)`. */
  function Join(parts: seq<string>, mark: char): string
  {
    if parts == [] then ""
    else if |parts| == 1 then parts[0]
    else Join(parts[..|parts| - 1], mark) + [mark] + parts[|parts| - 1]
  }

  /** One more character extends the last part, or opens a new one. */
  lemma {:induction false} SplitStep(text: string, mark: char, c: char)
    ensures var parts := Split(text, mark);
            Split(text + [c], mark)
            == if c == mark then parts + [""] else parts[|parts| - 1 := parts[|parts| - 1] + [c]]
  {
    assert (text + [c])[..|text|] == text;
  }

  lemma {:induction false} SplitAppend(text: string, mark: char, part: string)
    requires mark !in part
    ensures var parts := Split(text, mark);
            Split(text + part, mark) == parts[|parts| - 1 := parts[|parts| - 1] + part]
  {
    if part == "" {
      assert text + part == text;
      assert Split(text, mark)[|Split(text, mark)| - 1] + part == Split(text, mark)[|Split(text, mark)| - 1];
    } else {
      var n := |part| - 1;
      SplitAppend(text, mark, part[..n]);
      SplitStep(text + part[..n], mark, part[n]);
      assert (text + part[..n]) + [part[n]] == text + part;
      ExtendLast(Split(text, mark), part, n);
    }
  }

  lemma {:induction false} ExtendLast(parts: seq<string>, part: string, n: nat)
    requires parts != [] && |part| == n + 1
    ensures var last, k := parts[|parts| - 1], |parts| - 1;
            var once := parts[k := last + part[..n]];
            once[k := once[k] + [part[n]]] == parts[k := last + part]
  {
    assert (parts[|parts| - 1] + part[..n]) + [part[n]] == parts[|parts| - 1] + part;
  }

  /** Splitting undoes joining. */
  lemma {:induction false} SplitJoin(parts: seq<string>, mark: char)
    requires parts != [] && forall i :: 0 <= i < |parts| ==> mark !in parts[i]
    ensures Split(Join(parts, mark), mark) == parts
  {
    var n := |parts| - 1;
    if n == 0 {
      assert "" + parts[0] == parts[0];
      SplitAppend("", mark, parts[0]);
    } else {
      var front := Join(parts[..n], mark);
      SplitJoin(parts[..n], mark);
      SplitStep(front, mark, mark);
      SplitAppend(front + [mark], mark, parts[n]);
      assert "" + parts[n] == parts[n];
      assert (parts[..n] + [""])[n := parts[n]] == parts;
    }
  }

  // ---------------------------------------------------------------- strip

  function StripLeft(s: string, drop: char -> bool): string
  {
    if s != "" && drop(s[0]) then StripLeft(s[1..], drop) else s
  }

  function StripRight(s: string, drop: char -> bool): string
  {
    if s != "" && drop(s[|s| - 1]) then StripRight(s[..|s| - 1], drop) else s
  }

  /** `s.strip(...)`, given which characters go. */
  function Strip(s: string, drop: char -> bool): string
  {
    StripRight(StripLeft(s, drop), drop)
  }

  lemma {:induction false} StripLeftOne(c: char, s: string, drop: char -> bool)
    requires drop(c)
    ensures StripLeft([c] + s, drop) == StripLeft(s, drop)
  {
    assert ([c] + s)[1..] == s;
  }

  lemma {:induction false} StripRightOne(s: string, c: char, drop: char -> bool)
    requires drop(c)
    ensures StripRight(s + [c], drop) == StripRight(s, drop)
  {
    assert (s + [c])[..|s|] == s;
  }

  /** What has anything to keep is not stripped to nothing. */
  lemma {:induction false} StripKeeps(s: string, drop: char -> bool, i: nat)
    requires i < |s| && !drop(s[i])
    ensures Strip(s, drop) != ""
  {
    var j := StripLeftKeeps(s, drop, i);
    StripRightKeeps(StripLeft(s, drop), drop, j);
  }

  lemma {:induction false} StripLeftKeeps(s: string, drop: char -> bool, i: nat) returns (j: nat)
    requires i < |s| && !drop(s[i])
    ensures j < |StripLeft(s, drop)| && !drop(StripLeft(s, drop)[j])
  {
    if drop(s[0]) {
      j := StripLeftKeeps(s[1..], drop, i - 1);
    } else {
      j := i;
    }
  }

  lemma {:induction false} StripRightKeeps(s: string, drop: char -> bool, i: nat)
    requires i < |s| && !drop(s[i])
    ensures StripRight(s, drop) != ""
  {
    if drop(s[|s| - 1]) {
      StripRightKeeps(s[..|s| - 1], drop, i);
    }
  }

  // ---------------------------------------------------------------- lines

  /** Where `str.splitlines` breaks. */
  predicate IsBreak(c: char)
  {
    '\n' <= c <= '\r' || '\U{1c}' <= c <= '\U{1e}' || c == '\U{85}' || c == '\U{2028}' || c == '\U{2029}'
  }

  /** What `str.strip` takes for white space. */
  predicate IsSpace(c: char)
  {
    || '\t' <= c <= '\r' || '\U{1c}' <= c <= ' ' || c == '\U{85}' || c == '\U{a0}' || c == '\U{1680}'
    || '\U{2000}' <= c <= '\U{200a}' || c == '\U{2028}' || c == '\U{2029}' || c == '\U{202f}' || c == '\U{205f}'
    || c == '\U{3000}'
  }

  function LineEnd(text: string, i: nat): (n: nat)
    requires i <= |text|
    ensures i <= n <= |text|
    ensures forall j :: i <= j < n ==> !IsBreak(text[j])
    ensures n < |text| ==> IsBreak(text[n])
    decreases |text| - i
  {
    if i < |text| && !IsBreak(text[i]) then LineEnd(text, i + 1) else i
  }

  /** `text.splitlines()`: a carriage return and line feed together are one break. */
  function SplitLines(text: string): seq<string>
    decreases |text|
  {
    if text == "" then []
    else
      var n := LineEnd(text, 0);
      if n == |text| then [text]
      else
        var next := if text[n] == '\r' && n + 1 < |text| && text[n + 1] == '\n' then n + 2 else n + 1;
        [text[..n]] + SplitLines(text[next..])
  }

  predicate OneLine(line: string)
  {
    forall i :: 0 <= i < |line| ==> !IsBreak(line[i])
  }

  lemma {:induction false} FirstLine(line: string, rest: string)
    requires OneLine(line)
    ensures SplitLines(line + "\n" + rest) == [line] + SplitLines(rest)
  {
    var text := line + "\n" + rest;
    FirstBreak(line, rest);
    assert text[..|line|] == line;
    assert text[|line| + 1..] == rest;
  }

  lemma {:induction false} FirstBreak(line: string, rest: string)
    requires OneLine(line)
    ensures LineEnd(line + "\n" + rest, 0) == |line| && (line + "\n" + rest)[|line|] == '\n'
  {
    var text := line + "\n" + rest;
    assert text[|line|] == '\n';
    assert forall i :: 0 <= i < |line| ==> text[i] == line[i];
  }
}
