/** Splitting a command's output into sections (`_parse_output` in sparkscope/parsers.py). */
module Sections {
  import opened Options
  import opened Text

  /** `"\n".join(lines)`. */
  function Joined(lines: seq<string>): string
  {
    Join(lines, '\n')
  }

  // ---------------------------------------------------------------- headers

  /** `line.startswith("---") and line.endswith("---")`. */
  predicate IsHeader(line: string)
  {
    |line| >= 3 && line[..3] == "---" && line[|line| - 3..] == "---"
  }

  /** A header is any line that begins and ends with three dashes, which may be the same ones. */
  lemma {:induction false} HeaderIff(line: string)
    ensures IsHeader(line)
            <==> (exists rest: string :: line == "---" + rest) && (exists front: string :: line == front + "---")
  {
    if IsHeader(line) {
      assert line == "---" + line[3..];
      assert line == line[..|line| - 3] + "---";
    }
    if exists rest: string, front: string :: line == "---" + rest && line == front + "---" {
      var rest: string, front: string :| line == "---" + rest && line == front + "---";
      assert line[..3] == "---" && line[|front|..] == "---";
    }
  }

  predicate IsDash(c: char)
  {
    c == '-'
  }

  predicate IsName(name: string)
  {
    name != "" && name[0] != '-' && name[|name| - 1] != '-' && '\n' !in name
  }

  function Header(name: string): string
  {
    "---" + name + "---"
  }

  lemma {:induction false} HeaderNames(name: string)
    requires IsName(name)
    ensures IsHeader(Header(name)) && Strip(Header(name), IsDash) == name && '\n' !in Header(name)
  {
    assert IsHeader(Header(name)) && '\n' !in Header(name);
    StripLeftHeader(name + "---");
    StripRightHeader(name);
    assert Header(name) == "---" + (name + "---");
  }

  lemma {:induction false} StripLeftHeader(s: string)
    ensures StripLeft("---" + s, IsDash) == StripLeft(s, IsDash)
  {
    StripLeftOne('-', "--" + s, IsDash);
    StripLeftOne('-', "-" + s, IsDash);
    StripLeftOne('-', s, IsDash);
    assert ['-'] + ("--" + s) == "---" + s;
    assert ['-'] + ("-" + s) == "--" + s;
    assert ['-'] + s == "-" + s;
  }

  lemma {:induction false} StripRightHeader(s: string)
    ensures StripRight(s + "---", IsDash) == StripRight(s, IsDash)
  {
    StripRightOne(s + "--", '-', IsDash);
    StripRightOne(s + "-", '-', IsDash);
    StripRightOne(s, '-', IsDash);
    assert s + "--" + ['-'] == s + "---";
    assert s + "-" + ['-'] == s + "--";
    assert s + ['-'] == s + "-";
  }

  // ---------------------------------------------------------------- the loop

  /** The loop's variables; an empty `current` stands for no section, as it does for the truth test of the source. */
  datatype State = State(sections: map<string, string>, current: string, lines: seq<string>)

  function Flushed(st: State): map<string, string>
  {
    if st.current != "" then st.sections[st.current := Joined(st.lines)] else st.sections
  }

  function Read(st: State, line: string): State
  {
    if IsHeader(line) then State(Flushed(st), Strip(line, IsDash), []) else st.(lines := st.lines + [line])
  }

  function ReadAll(lines: seq<string>): State
  {
    if lines == [] then State(map[], "", []) else Read(ReadAll(lines[..|lines| - 1]), lines[|lines| - 1])
  }

  /** The section splitter. */
  method SplitSections(output: string) returns (sections: map<string, string>)
    ensures sections == Flushed(ReadAll(Split(output, '\n')))
  {
    sections := map[];
    var current, currentLines := "", [];
    var lines := Split(output, '\n');
    for n := 0 to |lines|
      invariant State(sections, current, currentLines) == ReadAll(lines[..n])
    {
      var line := lines[n];
      assert lines[..n + 1][..n] == lines[..n];
      if IsHeader(line) {
        if current != "" {
          sections := sections[current := Joined(currentLines)];
        }
        current, currentLines := Strip(line, IsDash), [];
      } else {
        currentLines := currentLines + [line];
      }
    }
    assert lines[..|lines|] == lines;
    if current != "" {
      sections := sections[current := Joined(currentLines)];
    }
  }

  // ---------------------------------------------------------------- printing and back

  datatype Section = Section(name: string, body: seq<string>)

  function Printed(preamble: seq<string>, sections: seq<Section>): seq<string>
  {
    if sections == [] then preamble
    else
      var last := sections[|sections| - 1];
      Printed(preamble, sections[..|sections| - 1]) + [Header(last.name)] + last.body
  }

  function Bodies(sections: seq<Section>): map<string, string>
  {
    if sections == [] then map[]
    else
      var last := sections[|sections| - 1];
      Bodies(sections[..|sections| - 1])[last.name := Joined(last.body)]
  }

  predicate IsBody(lines: seq<string>)
  {
    forall i :: 0 <= i < |lines| ==> '\n' !in lines[i] && !IsHeader(lines[i])
  }

  ghost predicate Printable(preamble: seq<string>, sections: seq<Section>)
  {
    IsBody(preamble) && forall i :: 0 <= i < |sections| ==> IsName(sections[i].name) && IsBody(sections[i].body)
  }

  lemma {:induction false} ReadBody(before: seq<string>, body: seq<string>)
    requires IsBody(body)
    ensures ReadAll(before + body) == ReadAll(before).(lines := ReadAll(before).lines + body)
  {
    if body == [] {
      assert before + body == before;
    } else {
      var n := |body| - 1;
      assert (before + body)[..|before| + n] == before + body[..n];
      ReadBody(before, body[..n]);
      assert body == body[..n] + [body[n]];
    }
  }

  /** Reading printed sections: the last one is still open, all others are recorded. */
  lemma {:induction false} ReadPrinted(preamble: seq<string>, sections: seq<Section>)
    requires Printable(preamble, sections)
    ensures Flushed(ReadAll(Printed(preamble, sections))) == Bodies(sections)
  {
    if sections == [] {
      ReadBody([], preamble);
      assert [] + preamble == preamble;
    } else {
      var front, last := sections[..|sections| - 1], sections[|sections| - 1];
      ReadPrinted(preamble, front);
      var before := Printed(preamble, front);
      HeaderNames(last.name);
      assert (before + [Header(last.name)])[..|before|] == before;
      ReadBody(before + [Header(last.name)], last.body);
      assert [] + last.body == last.body;
    }
  }

  lemma {:induction false} PrintedLines(preamble: seq<string>, sections: seq<Section>)
    requires Printable(preamble, sections)
    ensures forall i :: 0 <= i < |Printed(preamble, sections)| ==> '\n' !in Printed(preamble, sections)[i]
  {
    if sections != [] {
      PrintedLines(preamble, sections[..|sections| - 1]);
      HeaderNames(sections[|sections| - 1].name);
    }
  }

  /** Splitting undoes printing: the text of any preamble and sections splits into exactly the sections' bodies by name,
      the last of equal names winning. */
  lemma {:induction false} SplittingUndoesPrinting(preamble: seq<string>, sections: seq<Section>)
    requires Printable(preamble, sections)
    ensures Flushed(ReadAll(Split(Joined(Printed(preamble, sections)), '\n'))) == Bodies(sections)
  {
    var lines := Printed(preamble, sections);
    ReadPrinted(preamble, sections);
    assert sections != [] ==> |lines| >= 1;
    if lines == [] {
      assert Split(Joined(lines), '\n') == [""];
      assert [""][..0] == [];
    } else {
      PrintedLines(preamble, sections);
      SplitJoin(lines, '\n');
    }
  }

  /** With distinct names, every section comes back under its name, and nothing else does. */
  lemma {:induction false} BodiesByName(sections: seq<Section>, name: string)
    requires forall i, j :: 0 <= i < j < |sections| ==> sections[i].name != sections[j].name
    ensures forall i :: 0 <= i < |sections| && sections[i].name == name ==>
              Lookup(Bodies(sections), name) == Some(Joined(sections[i].body))
    ensures (forall i :: 0 <= i < |sections| ==> sections[i].name != name) ==> name !in Bodies(sections)
  {
    if sections != [] {
      BodiesByName(sections[..|sections| - 1], name);
    }
  }

  // ---------------------------------------------------------------- any text

  /** Line `h` is a header of that name. */
  predicate Opens(lines: seq<string>, h: int, name: string)
  {
    0 <= h < |lines| && IsHeader(lines[h]) && Strip(lines[h], IsDash) == name
  }

  lemma {:induction false} ReadPlain(lines: seq<string>, h: nat, e: nat)
    requires h <= e <= |lines| && forall i :: h <= i < e ==> !IsHeader(lines[i])
    ensures ReadAll(lines[..e]) == ReadAll(lines[..h]).(lines := ReadAll(lines[..h]).lines + lines[h..e])
  {
    if h < e {
      ReadPlain(lines, h, e - 1);
      assert lines[..e][..e - 1] == lines[..e - 1];
      SliceStep(lines, h, e);
    }
  }

  lemma {:induction false} SliceStep(lines: seq<string>, h: nat, e: nat)
    requires h < e <= |lines|
    ensures lines[h..e] == lines[h..e - 1] + [lines[e - 1]]
  {
  }

  /** What is recorded under a name stays until a header of that name opens. */
  lemma {:induction false} Recorded(lines: seq<string>, n: nat, name: string)
    requires n <= |lines| && name != "" && ReadAll(lines[..n]).current != name
    requires forall h :: n <= h ==> !Opens(lines, h, name)
    ensures ReadAll(lines).current != name
    ensures Lookup(ReadAll(lines).sections, name) == Lookup(ReadAll(lines[..n]).sections, name)
  {
    if n < |lines| {
      var front := lines[..|lines| - 1];
      assert front[..n] == lines[..n];
      forall h | n <= h
        ensures !Opens(front, h, name)
      {
        assert !Opens(lines, h, name);
      }
      Recorded(front, n, name);
      assert !Opens(lines, |lines| - 1, name);
    } else {
      assert lines[..n] == lines;
    }
  }

  lemma {:induction false} SectionRead(lines: seq<string>, name: string, h: nat, e: nat)
    requires Opens(lines, h, name) && h < e <= |lines|
    requires forall i :: h < i < e ==> !IsHeader(lines[i])
    ensures ReadAll(lines[..e]).current == name && ReadAll(lines[..e]).lines == lines[h + 1..e]
  {
    assert lines[..h + 1][..h] == lines[..h];
    ReadPlain(lines, h + 1, e);
  }

  lemma {:induction false} SectionClosed(lines: seq<string>, name: string, e: nat)
    requires name != "" && e < |lines| && IsHeader(lines[e]) && !Opens(lines, e, name)
    requires ReadAll(lines[..e]).current == name
    ensures ReadAll(lines[..e + 1]).current != name
    ensures Lookup(ReadAll(lines[..e + 1]).sections, name) == Some(Joined(ReadAll(lines[..e]).lines))
  {
    assert lines[..e + 1][..e] == lines[..e];
  }

  /** For any text: under a name is what stands between its last header and the next header, or the end. */
  lemma {:induction false} LastSectionWins(lines: seq<string>, name: string, h: nat, e: nat)
    requires name != "" && Opens(lines, h, name) && h < e <= |lines|
    requires forall i :: h < i < e ==> !IsHeader(lines[i])
    requires e < |lines| ==> IsHeader(lines[e])
    requires forall i :: e <= i ==> !Opens(lines, i, name)
    ensures Lookup(Flushed(ReadAll(lines)), name) == Some(Joined(lines[h + 1..e]))
  {
    SectionRead(lines, name, h, e);
    if e < |lines| {
      SectionClosed(lines, name, e);
      Recorded(lines, e + 1, name);
    } else {
      assert lines[..e] == lines;
    }
  }

  /** A name without a header has no section, and neither has the empty name. */
  lemma {:induction false} NoHeaderNoSection(lines: seq<string>, name: string)
    requires forall h :: 0 <= h ==> !Opens(lines, h, name)
    ensures name != "" ==> name !in Flushed(ReadAll(lines))
    ensures "" !in Flushed(ReadAll(lines))
  {
    NothingUnnamed(lines);
    if name != "" {
      Recorded(lines, 0, name);
      assert lines[..0] == [];
    }
  }

  lemma {:induction false} NothingUnnamed(lines: seq<string>)
    ensures "" !in ReadAll(lines).sections
  {
    if lines != [] {
      NothingUnnamed(lines[..|lines| - 1]);
    }
  }
}
