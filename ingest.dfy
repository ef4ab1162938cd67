/** Text cleaning and paragraph packing of ingest_pdf.py. The three regular-expression
    substitutions of clean_text and the heading split of smart_chunk are written out as the
    left-to-right scans Python's `re` module performs, with `\s` read as ASCII whitespace. */
module IngestPdf {
  import opened Seqs
  import opened Text

  /** Chunks of at most this many characters are dropped at the end of smart_chunk. */
  const MIN_CHUNK: nat := 200

  // ---------------------------------------------------------------------------------------------
  // clean_text
  // ---------------------------------------------------------------------------------------------

  /** `re.sub(r'\r', '\n', text)`. */
  function CrToNewline(s: string): (r: string)
    ensures |r| == |s| && '\r' !in r
    ensures forall i :: 0 <= i < |s| && s[i] == '\r' ==> r[i] == '\n'
    ensures forall i :: 0 <= i < |s| && s[i] != '\r' ==> r[i] == s[i]
  {
    seq(|s|, i requires 0 <= i < |s| => if s[i] == '\r' then '\n' else s[i])
  }

  /** The number of newlines in the whitespace run that `t` starts with. */
  function NewlinesAhead(t: string): nat
  {
    if t == [] || !IsSpace(t[0]) then 0
    else (if t[0] == '\n' then 1 else 0) + NewlinesAhead(t[1..])
  }

  /** One plus the index of the last newline of the whitespace run `t` starts with; 0 if that run
      holds none. */
  function RunLastNewline(t: string): (e: nat)
    ensures e <= |t|
    ensures forall k :: 0 <= k < e ==> IsSpace(t[k])
    ensures e > 0 ==> t[e - 1] == '\n'
    ensures NewlinesAhead(t[e..]) == 0
  {
    if t == [] || !IsSpace(t[0]) then 0
    else
      var e := RunLastNewline(t[1..]);
      assert t[1..][e..] == t[e + 1..];
      if e > 0 then e + 1 else if t[0] == '\n' then 1 else 0
  }

  /** The length of the match of `\n\s*\n+` at the start of `s`, or 0 when there is none: the
      pattern takes the newline, then the greedy `\s*` gives back characters until `\n+` can take
      the last newline of the whitespace run. */
  function BlankLineMatch(s: string): nat
  {
    if s != [] && s[0] == '\n' && RunLastNewline(s) >= 2 then RunLastNewline(s) else 0
  }

  /** `re.sub(r'\n\s*\n+', '\n\n', s)`: every run of whitespace holding two or more newlines loses
      everything from its first newline to its last, which becomes one blank line. */
  function CollapseBlankLines(s: string): (r: string)
    ensures forall c :: c in r ==> c in s || c == '\n'
    decreases |s|
  {
    if s == [] then []
    else if BlankLineMatch(s) > 0 then
      var rest := s[BlankLineMatch(s)..];
      assert forall c :: c in rest ==> c in s;
      "\n\n" + CollapseBlankLines(rest)
    else
      [s[0]] + CollapseBlankLines(s[1..])
  }

  predicate IsBlank(c: char) { c == ' ' || c == '\t' }

  /** The length of the run of spaces and tabs that `t` starts with. */
  function BlankRun(t: string): (n: nat)
    ensures n <= |t|
    ensures forall k :: 0 <= k < n ==> IsBlank(t[k])
    ensures n < |t| ==> !IsBlank(t[n])
    ensures t != [] && IsBlank(t[0]) ==> n > 0
  {
    if t != [] && IsBlank(t[0]) then 1 + BlankRun(t[1..]) else 0
  }

  /** `re.sub(r'[ \t]+', ' ', t)`. */
  function SquashBlanks(t: string): (r: string)
    ensures forall c :: c in r ==> (c in t && c != '\t') || c == ' '
    ensures r == [] <==> t == []
    ensures r != [] ==> (r[0] == ' ' <==> IsBlank(t[0]))
    ensures forall i :: 0 <= i < |r| - 1 ==> !(r[i] == ' ' && r[i + 1] == ' ')
    decreases |t|
  {
    if t == [] then []
    else if IsBlank(t[0]) then
      var rest := t[BlankRun(t)..];
      assert forall c :: c in rest ==> c in t;
      var r := " " + SquashBlanks(rest);
      assert forall i :: 1 <= i < |r| ==> r[i] == SquashBlanks(rest)[i - 1];
      r
    else
      var r := [t[0]] + SquashBlanks(t[1..]);
      assert forall i :: 1 <= i < |r| ==> r[i] == SquashBlanks(t[1..])[i - 1];
      r
  }

  /** clean_text: carriage returns become newlines, blank-line runs become one blank line, runs of
      spaces and tabs become one space, and the ends are stripped. */
  function CleanText(text: string): string
  {
    Strip(SquashBlanks(CollapseBlankLines(CrToNewline(text))))
  }

  /** No whitespace run of `t`, from any starting point, holds more than two newlines. */
  predicate FewNewlines(t: string)
  {
    forall i :: 0 <= i <= |t| ==> NewlinesAhead(t[i..]) <= 2
  }

  lemma {:induction false} CollapseFewNewlines(s: string)
    ensures NewlinesAhead(CollapseBlankLines(s)) <= 2
    ensures NewlinesAhead(s) == 0 ==> NewlinesAhead(CollapseBlankLines(s)) == 0
    ensures FewNewlines(CollapseBlankLines(s))
    decreases |s|
  {
    var r := CollapseBlankLines(s);
    if s == [] {
    } else if BlankLineMatch(s) > 0 {
      var rest := s[BlankLineMatch(s)..];
      var c := CollapseBlankLines(rest);
      CollapseFewNewlines(rest);
      assert r[1..] == "\n" + c && r[2..] == c;
      assert NewlinesAhead(r) == 2;
      forall i | 0 <= i <= |r| ensures NewlinesAhead(r[i..]) <= 2 {
        if i >= 2 {
          assert r[i..] == c[i - 2..];
        }
      }
    } else {
      var c := CollapseBlankLines(s[1..]);
      CollapseFewNewlines(s[1..]);
      assert r[1..] == c;
      if s[0] == '\n' {
        assert RunLastNewline(s[1..]) == 0;
        assert s[1..][0..] == s[1..];
      }
      forall i | 0 <= i <= |r| ensures NewlinesAhead(r[i..]) <= 2 {
        if i >= 1 {
          assert r[i..] == c[i - 1..];
        }
      }
    }
  }

  /** Skipping a run of spaces and tabs does not change the newline count ahead. */
  lemma {:induction false} NewlinesAheadSkipBlanks(t: string, n: nat)
    requires n <= |t| && forall k :: 0 <= k < n ==> IsBlank(t[k])
    ensures NewlinesAhead(t) == NewlinesAhead(t[n..])
    decreases n
  {
    if n > 0 {
      NewlinesAheadSkipBlanks(t[1..], n - 1);
      assert t[1..][n - 1..] == t[n..];
    }
  }

  lemma {:induction false} SquashFewNewlines(t: string)
    ensures NewlinesAhead(SquashBlanks(t)) == NewlinesAhead(t)
    ensures FewNewlines(t) ==> FewNewlines(SquashBlanks(t))
    decreases |t|
  {
    var r := SquashBlanks(t);
    if t == [] {
    } else if IsBlank(t[0]) {
      var n := BlankRun(t);
      var rest := t[n..];
      SquashFewNewlines(rest);
      NewlinesAheadSkipBlanks(t, n);
      assert r[1..] == SquashBlanks(rest) && r[0..] == r && t[0..] == t;
      if FewNewlines(t) {
        forall i | 0 <= i <= |rest| ensures NewlinesAhead(rest[i..]) <= 2 {
          assert rest[i..] == t[n + i..];
        }
        forall i | 0 <= i <= |r| ensures NewlinesAhead(r[i..]) <= 2 {
          if i >= 1 {
            assert r[i..] == SquashBlanks(rest)[i - 1..];
          }
        }
      }
    } else {
      var rest := t[1..];
      SquashFewNewlines(rest);
      assert r[1..] == SquashBlanks(rest) && r[0..] == r && t[0..] == t;
      if FewNewlines(t) {
        forall i | 0 <= i <= |rest| ensures NewlinesAhead(rest[i..]) <= 2 {
          assert rest[i..] == t[1 + i..];
        }
        forall i | 0 <= i <= |r| ensures NewlinesAhead(r[i..]) <= 2 {
          if i >= 1 {
            assert r[i..] == SquashBlanks(rest)[i - 1..];
          }
        }
      }
    }
  }

  /** Cutting a string short never adds newlines to the run ahead. */
  lemma {:induction false} NewlinesAheadPrefix(w: string, n: nat)
    requires n <= |w|
    ensures NewlinesAhead(w[..n]) <= NewlinesAhead(w)
    decreases n
  {
    if n > 0 && IsSpace(w[0]) {
      NewlinesAheadPrefix(w[1..], n - 1);
      assert w[..n][1..] == w[1..][..n - 1];
    }
  }

  lemma StripFewNewlines(u: string)
    requires FewNewlines(u)
    ensures FewNewlines(Strip(u))
  {
    var a, r := LeadingSpaces(u), Strip(u);
    assert a + |r| <= |u| && r == u[a..a + |r|];
    FewNewlinesInSlice(u, a, r);
  }

  /** A slice of a string without long newline runs has none either. */
  lemma FewNewlinesInSlice(u: string, a: nat, r: string)
    requires a + |r| <= |u| && r == u[a..a + |r|] && FewNewlines(u)
    ensures FewNewlines(r)
  {
    var b := a + |r|;
    forall i | 0 <= i <= |r| ensures NewlinesAhead(r[i..]) <= 2 {
      SuffixOfSlice(u, a, b, i);
      NewlinesAheadPrefix(u[a + i..], b - a - i);
    }
  }

  lemma CollapseKeepsOut(s: string, c: char)
    requires c != '\n' && c !in s
    ensures c !in CollapseBlankLines(s)
  {
  }

  lemma SquashKeepsOut(t: string, c: char)
    requires c != ' ' && c !in t
    ensures c !in SquashBlanks(t) && '\t' !in SquashBlanks(t)
  {
  }

  lemma StripKeepsOut(u: string, c: char)
    requires c !in u
    ensures c !in Strip(u)
  {
    var a := LeadingSpaces(u);
    assert Strip(u) == u[a..a + |Strip(u)|];
  }

  lemma CleanTextNoCrOrTab(text: string)
    ensures var r := CleanText(text); forall i :: 0 <= i < |r| ==> r[i] != '\r' && r[i] != '\t'
  {
    var crlf := CrToNewline(text);
    var collapsed := CollapseBlankLines(crlf);
    var squashed := SquashBlanks(collapsed);
    assert '\r' !in crlf;
    CollapseKeepsOut(crlf, '\r');
    SquashKeepsOut(collapsed, '\r');
    StripKeepsOut(squashed, '\r');
    StripKeepsOut(squashed, '\t');
  }

  lemma CleanTextNoDoubleSpace(text: string)
    ensures var r := CleanText(text); forall i :: 0 <= i < |r| - 1 ==> !(r[i] == ' ' && r[i + 1] == ' ')
  {
    var squashed := SquashBlanks(CollapseBlankLines(CrToNewline(text)));
    var r := Strip(squashed);
    var a := LeadingSpaces(squashed);
    forall i | 0 <= i < |r| - 1 ensures !(r[i] == ' ' && r[i + 1] == ' ') {
      assert r[i] == squashed[a + i] && r[i + 1] == squashed[a + i + 1];
    }
  }

  lemma ThreeNewlinesAhead(r: string, i: nat)
    requires i < |r| - 2
    ensures r[i] == '\n' && r[i + 1] == '\n' && r[i + 2] == '\n' ==> NewlinesAhead(r[i..]) >= 3
  {
    if r[i] == '\n' && r[i + 1] == '\n' && r[i + 2] == '\n' {
      assert r[i + 2..][0] == '\n';
      assert NewlinesAhead(r[i + 2..]) >= 1;
      assert r[i + 1..][1..] == r[i + 2..] && r[i + 1..][0] == '\n';
      assert NewlinesAhead(r[i + 1..]) >= 2;
      assert r[i..][1..] == r[i + 1..] && r[i..][0] == '\n';
    }
  }

  lemma NoTripleNewline(r: string)
    requires FewNewlines(r)
    ensures forall i :: 0 <= i < |r| - 2 ==> !(r[i] == '\n' && r[i + 1] == '\n' && r[i + 2] == '\n')
  {
    forall i | 0 <= i < |r| - 2 ensures !(r[i] == '\n' && r[i + 1] == '\n' && r[i + 2] == '\n') {
      ThreeNewlinesAhead(r, i);
    }
  }

  lemma CleanTextFewNewlines(text: string)
    ensures FewNewlines(CleanText(text))
  {
    var crlf := CrToNewline(text);
    var collapsed := CollapseBlankLines(crlf);
    CollapseFewNewlines(crlf);
    SquashFewNewlines(collapsed);
    StripFewNewlines(SquashBlanks(collapsed));
  }

  lemma CleanTextNoTripleNewline(text: string)
    ensures var r := CleanText(text);
      forall i :: 0 <= i < |r| - 2 ==> !(r[i] == '\n' && r[i + 1] == '\n' && r[i + 2] == '\n')
  {
    CleanTextFewNewlines(text);
    NoTripleNewline(CleanText(text));
  }

  /** The output of clean_text has no carriage return, no tab, no two spaces in a row, no
      whitespace at either end and never three newlines in a row. */
  lemma CleanTextShape(text: string)
    ensures var r := CleanText(text);
      && (forall i :: 0 <= i < |r| ==> r[i] != '\r' && r[i] != '\t')
      && (forall i :: 0 <= i < |r| - 1 ==> !(r[i] == ' ' && r[i + 1] == ' '))
      && (r == [] || (!IsSpace(r[0]) && !IsSpace(r[|r| - 1])))
      && (forall i :: 0 <= i < |r| - 2 ==> !(r[i] == '\n' && r[i + 1] == '\n' && r[i + 2] == '\n'))
  {
    CleanTextNoCrOrTab(text);
    CleanTextNoDoubleSpace(text);
    CleanTextNoTripleNewline(text);
  }

  predicate NotSpace(c: char) { !IsSpace(c) }

  lemma {:induction false} CrToNewlineKeepsVisible(s: string)
    ensures Filter(NotSpace, CrToNewline(s)) == Filter(NotSpace, s)
    decreases |s|
  {
    if s != [] {
      CrToNewlineKeepsVisible(s[1..]);
      assert CrToNewline(s)[1..] == CrToNewline(s[1..]);
    }
  }

  lemma {:induction false} CollapseKeepsVisible(s: string)
    ensures Filter(NotSpace, CollapseBlankLines(s)) == Filter(NotSpace, s)
    decreases |s|
  {
    if s != [] {
      var e := BlankLineMatch(s);
      if e > 0 {
        CollapseKeepsVisible(s[e..]);
        assert s == s[..e] + s[e..];
        FilterConcat(NotSpace, s[..e], s[e..]);
        FilterDropsAll(NotSpace, s[..e]);
        FilterConcat(NotSpace, "\n\n", CollapseBlankLines(s[e..]));
        FilterDropsAll(NotSpace, "\n\n");
      } else {
        CollapseKeepsVisible(s[1..]);
        assert ([s[0]] + CollapseBlankLines(s[1..]))[1..] == CollapseBlankLines(s[1..]);
      }
    }
  }

  lemma {:induction false} SquashKeepsVisible(t: string)
    ensures Filter(NotSpace, SquashBlanks(t)) == Filter(NotSpace, t)
    decreases |t|
  {
    if t != [] {
      if IsBlank(t[0]) {
        var n := BlankRun(t);
        SquashKeepsVisible(t[n..]);
        assert t == t[..n] + t[n..];
        FilterConcat(NotSpace, t[..n], t[n..]);
        FilterDropsAll(NotSpace, t[..n]);
        assert (" " + SquashBlanks(t[n..]))[1..] == SquashBlanks(t[n..]);
      } else {
        SquashKeepsVisible(t[1..]);
        assert ([t[0]] + SquashBlanks(t[1..]))[1..] == SquashBlanks(t[1..]);
      }
    }
  }

  lemma StripKeepsVisible(u: string)
    ensures Filter(NotSpace, Strip(u)) == Filter(NotSpace, u)
  {
    var a, r := LeadingSpaces(u), Strip(u);
    assert a + |r| <= |u| && r == u[a..a + |r|];
    VisibleInside(u, a, a + |r|);
  }

  /** Cutting off whitespace at both ends keeps every visible character. */
  lemma VisibleInside(u: string, a: nat, b: nat)
    requires a <= b <= |u|
    requires forall k :: 0 <= k < a ==> IsSpace(u[k])
    requires forall k :: b <= k < |u| ==> IsSpace(u[k])
    ensures Filter(NotSpace, u[a..b]) == Filter(NotSpace, u)
  {
    var front, back := u[..a], u[b..];
    assert Filter(NotSpace, front) == [] by {
      assert forall k :: 0 <= k < |front| ==> front[k] == u[k];
      SpacesVanish(front);
    }
    assert Filter(NotSpace, back) == [] by {
      assert forall k :: 0 <= k < |back| ==> back[k] == u[b + k];
      SpacesVanish(back);
    }
    FilterMiddle(NotSpace, u, a, b);
  }

  lemma SpacesVanish(s: string)
    requires forall k :: 0 <= k < |s| ==> IsSpace(s[k])
    ensures Filter(NotSpace, s) == []
  {
    FilterDropsAll(NotSpace, s);
  }

  /** clean_text changes whitespace only: the non-whitespace characters come out unchanged and in
      their order. */
  lemma CleanTextKeepsVisible(text: string)
    ensures Filter(NotSpace, CleanText(text)) == Filter(NotSpace, text)
  {
    CrToNewlineKeepsVisible(text);
    CollapseKeepsVisible(CrToNewline(text));
    SquashKeepsVisible(CollapseBlankLines(CrToNewline(text)));
    StripKeepsVisible(SquashBlanks(CollapseBlankLines(CrToNewline(text))));
  }

  // ---------------------------------------------------------------------------------------------
  // The heading split of smart_chunk
  // ---------------------------------------------------------------------------------------------

  /** The class `[A-Z\s\d\-\.]`. */
  predicate HeadingChar(c: char)
  {
    IsUpper(c) || IsSpace(c) || IsDigit(c) || c == '-' || c == '.'
  }

  /** The separator `\n(?=[A-Z][A-Z\s\d\-\.]{5,})` matches at the start of `t`: a newline followed
      by a capital letter and at least five heading characters. */
  predicate HeadingBreak(t: string)
  {
    |t| >= 7 && t[0] == '\n' && IsUpper(t[1]) && forall k :: 2 <= k < 7 ==> HeadingChar(t[k])
  }

  /** `re.split(r'\n(?=[A-Z][A-Z\s\d\-\.]{5,})', t)`: the newline before each heading is cut out. */
  function Sections(t: string): (secs: seq<string>)
    ensures |secs| >= 1
    decreases |t|
  {
    if t == [] then [""]
    else if HeadingBreak(t) then [""] + Sections(t[1..])
    else
      var rest := Sections(t[1..]);
      [[t[0]] + rest[0]] + rest[1..]
  }

  /** The sections joined with newlines give back the text. */
  lemma {:induction false} SectionsRoundTrip(t: string)
    ensures Join("\n", Sections(t)) == t
    decreases |t|
  {
    if t == [] {
    } else if HeadingBreak(t) {
      SectionsRoundTrip(t[1..]);
      JoinCons("\n", "", Sections(t[1..]));
      assert t == "\n" + t[1..];
    } else {
      SectionsRoundTrip(t[1..]);
      JoinExtendHead("\n", t[0], Sections(t[1..]));
      assert t == [t[0]] + t[1..];
    }
  }

  /** Every section after the first starts with the capital letter of its heading. */
  lemma {:induction false} SectionsStartWithHeadings(t: string)
    ensures var secs := Sections(t);
      forall k :: 1 <= k < |secs| ==> secs[k] != [] && IsUpper(secs[k][0])
    decreases |t|
  {
    if t != [] {
      SectionsStartWithHeadings(t[1..]);
      if HeadingBreak(t) {
        var u := t[1..];
        assert !HeadingBreak(u);
        assert Sections(u)[0] == [u[0]] + Sections(u[1..])[0];
        assert forall k :: 1 <= k < |Sections(t)| ==> Sections(t)[k] == Sections(u)[k - 1];
      } else {
        assert forall k :: 1 <= k < |Sections(t)| ==> Sections(t)[k] == Sections(t[1..])[k];
      }
    }
  }

  // ---------------------------------------------------------------------------------------------
  // Paragraph packing
  // ---------------------------------------------------------------------------------------------

  /** The state of the paragraph loop: the chunks emitted so far and `current_chunk`. */
  datatype Packing = Packing(chunks: seq<string>, current: string)

  /** `current_chunk[-overlap:] if len(current_chunk) > overlap else ""`. With `overlap == 0` the
      slice is the whole of `current_chunk`. */
  function OverlapTail(current: string, overlap: nat): string
  {
    if |current| > overlap then PyTail(current, overlap) else ""
  }

  /** One pass of the inner loop over paragraphs. */
  function PackStep(st: Packing, rawPara: string, maxChars: int, overlap: nat): Packing
  {
    var para := Strip(rawPara);
    if para == [] then st
    else if |st.current| + |para| < maxChars then Packing(st.chunks, st.current + para + "\n\n")
    else Packing(st.chunks + [Strip(st.current)], OverlapTail(st.current, overlap) + para + "\n\n")
  }

  /** The state after the inner loop has taken the paragraphs `paras`, in order. */
  function Pack(paras: seq<string>, st: Packing, maxChars: int, overlap: nat): Packing
  {
    if paras == [] then st
    else PackStep(Pack(paras[..|paras| - 1], st, maxChars, overlap), paras[|paras| - 1], maxChars, overlap)
  }

  function Paragraphs(section: string): seq<string>
  {
    SplitOn(section, "\n\n")
  }

  /** The chunks one section contributes: those flushed while packing, then the stripped rest
      unless it is empty. */
  function SectionChunks(section: string, maxChars: int, overlap: nat): seq<string>
  {
    var end := Pack(Paragraphs(section), Packing([], ""), maxChars, overlap);
    end.chunks + (if Strip(end.current) != [] then [Strip(end.current)] else [])
  }

  /** The chunking of one section, as a function value. */
  function SectionChunker(maxChars: int, overlap: nat): string -> seq<string>
  {
    section => SectionChunks(section, maxChars, overlap)
  }

  /** The chunks of each section, in section order. */
  function SectionChunkLists(secs: seq<string>, maxChars: int, overlap: nat): seq<seq<string>>
  {
    Map(SectionChunker(maxChars, overlap), secs)
  }

  /** The chunks of all sections, section by section. */
  function ChunksOfSections(secs: seq<string>, maxChars: int, overlap: nat): seq<string>
  {
    Concat(SectionChunkLists(secs, maxChars, overlap))
  }

  lemma ChunksOfSectionsSnoc(secs: seq<string>, section: string, maxChars: int, overlap: nat)
    ensures ChunksOfSections(secs + [section], maxChars, overlap)
      == ChunksOfSections(secs, maxChars, overlap) + SectionChunks(section, maxChars, overlap)
  {
    MapSnoc(SectionChunker(maxChars, overlap), secs, section);
    ConcatSnoc(SectionChunkLists(secs, maxChars, overlap), SectionChunks(section, maxChars, overlap));
  }

  predicate IsLarge(c: string) { |c| > MIN_CHUNK }

  /** The value of smart_chunk. */
  function SmartChunks(text: string, maxChars: int, overlap: nat): seq<string>
  {
    Filter(IsLarge, ChunksOfSections(Sections(text), maxChars, overlap))
  }

  /** One pass of the paragraph loop of smart_chunk: skip a blank paragraph, append one that
      fits, or flush `current_chunk` and restart it from its overlap tail. */
  method AddParagraph(chunks: seq<string>, current: string, rawPara: string, maxChars: int, overlap: nat)
    returns (chunks': seq<string>, current': string)
    ensures Packing(chunks', current') == PackStep(Packing(chunks, current), rawPara, maxChars, overlap)
  {
    chunks', current' := chunks, current;
    var para := Strip(rawPara);
    if para == [] {
      return;
    }
    if |current| + |para| < maxChars {
      current' := current + para + "\n\n";
    } else {
      chunks' := chunks + [Strip(current)];
      var overlapText := if |current| > overlap then PyTail(current, overlap) else "";
      current' := overlapText + para + "\n\n";
    }
  }

  /** A step does not look at the chunks already emitted: it only appends to them. */
  lemma PackStepAfter(prefix: seq<string>, st: Packing, rawPara: string, maxChars: int, overlap: nat)
    ensures var next := PackStep(st, rawPara, maxChars, overlap);
      PackStep(Packing(prefix + st.chunks, st.current), rawPara, maxChars, overlap)
        == Packing(prefix + next.chunks, next.current)
  {
    assert prefix + (st.chunks + [Strip(st.current)]) == (prefix + st.chunks) + [Strip(st.current)];
  }

  /** The state after `j + 1` paragraphs is one step after the state after `j`, whatever chunks
      came before the section. */
  lemma PackSectionStep(chunks: seq<string>, paragraphs: seq<string>, j: nat, maxChars: int, overlap: nat)
    requires j < |paragraphs|
    ensures var st := Pack(paragraphs[..j], Packing([], ""), maxChars, overlap);
      var next := Pack(paragraphs[..j + 1], Packing([], ""), maxChars, overlap);
      PackStep(Packing(chunks + st.chunks, st.current), paragraphs[j], maxChars, overlap)
        == Packing(chunks + next.chunks, next.current)
  {
    TakeOneMore(paragraphs, j);
    PackSnoc(paragraphs[..j], paragraphs[j], Packing([], ""), maxChars, overlap);
    PackStepAfter(chunks, Pack(paragraphs[..j], Packing([], ""), maxChars, overlap), paragraphs[j], maxChars, overlap);
  }

  /** Once the paragraph loop has taken every paragraph, the stripped rest completes the section. */
  lemma FinishSection(chunks: seq<string>, section: string, extended: seq<string>, current: string, maxChars: int, overlap: nat)
    requires var paragraphs := Paragraphs(section);
      var st := Pack(paragraphs[..|paragraphs|], Packing([], ""), maxChars, overlap);
      extended == chunks + st.chunks && current == st.current
    ensures (if Strip(current) != [] then extended + [Strip(current)] else extended)
      == chunks + SectionChunks(section, maxChars, overlap)
  {
    var paragraphs := Paragraphs(section);
    TakeAll(paragraphs);
    var end := Pack(paragraphs, Packing([], ""), maxChars, overlap);
    assert extended == chunks + end.chunks && current == end.current;
    var rest := if Strip(end.current) != [] then [Strip(end.current)] else [];
    assert SectionChunks(section, maxChars, overlap) == end.chunks + rest;
    assert (chunks + end.chunks) + rest == chunks + (end.chunks + rest);
  }

  /** The inner loop of smart_chunk over the paragraphs of one section, appending to `chunks`. */
  method PackSection(chunks: seq<string>, section: string, maxChars: int, overlap: nat)
    returns (extended: seq<string>)
    ensures extended == chunks + SectionChunks(section, maxChars, overlap)
  {
    var paragraphs := Paragraphs(section);
    extended := chunks;
    var current: string := "";
    for j := 0 to |paragraphs|
      invariant var st := Pack(paragraphs[..j], Packing([], ""), maxChars, overlap);
        extended == chunks + st.chunks && current == st.current
    {
      PackSectionStep(chunks, paragraphs, j, maxChars, overlap);
      extended, current := AddParagraph(extended, current, paragraphs[j], maxChars, overlap);
    }
    FinishSection(chunks, section, extended, current, maxChars, overlap);
    if Strip(current) != [] {
      extended := extended + [Strip(current)];
    }
  }

  /** smart_chunk: each section's paragraphs are packed into chunks under the budget, with the tail
      of each flushed chunk carried into the next, and the small chunks are dropped. The defaults
      `max_chars=1200` and `overlap=150` are passed here as the arguments. */
  method SmartChunk(text: string, maxChars: int, overlap: nat) returns (finalChunks: seq<string>)
    ensures finalChunks == SmartChunks(text, maxChars, overlap)
    ensures forall i :: 0 <= i < |finalChunks| ==> |finalChunks[i]| > MIN_CHUNK
  {
    var sections := Sections(text);
    var chunks: seq<string> := [];
    for i := 0 to |sections|
      invariant chunks == ChunksOfSections(sections[..i], maxChars, overlap)
    {
      TakeOneMore(sections, i);
      ChunksOfSectionsSnoc(sections[..i], sections[i], maxChars, overlap);
      chunks := PackSection(chunks, sections[i], maxChars, overlap);
    }
    TakeAll(sections);
    finalChunks := Filter(IsLarge, chunks);
  }

  predicate NonBlank(p: string) { Strip(p) != [] }

  lemma PackSnoc(paras: seq<string>, x: string, st: Packing, maxChars: int, overlap: nat)
    ensures Pack(paras + [x], st, maxChars, overlap) == PackStep(Pack(paras, st, maxChars, overlap), x, maxChars, overlap)
  {
    assert (paras + [x])[..|paras + [x]| - 1] == paras;
  }

  /** Paragraphs that are empty once stripped neither start nor extend a chunk: packing gives the
      same state without them. */
  lemma {:induction false} PackIgnoresBlank(paras: seq<string>, st: Packing, maxChars: int, overlap: nat)
    ensures Pack(paras, st, maxChars, overlap) == Pack(Filter(NonBlank, paras), st, maxChars, overlap)
    decreases |paras|
  {
    if paras != [] {
      var pre := paras[..|paras| - 1];
      var x := paras[|paras| - 1];
      assert paras == pre + [x];
      var kept := Filter(NonBlank, pre);
      PackIgnoresBlank(pre, st, maxChars, overlap);
      PackSnoc(pre, x, st, maxChars, overlap);
      FilterSnoc(NonBlank, pre, x);
      if NonBlank(x) {
        assert Filter(NonBlank, paras) == kept + [x];
        PackSnoc(kept, x, st, maxChars, overlap);
      } else {
        assert Filter(NonBlank, paras) == kept;
      }
    }
  }

  /** A step that emits no chunk appends the paragraph, and leaves `current_chunk` shorter than
      the budget plus the two newlines. */
  lemma AppendStaysUnderBudget(st: Packing, rawPara: string, maxChars: int, overlap: nat)
    requires NonBlank(rawPara)
    requires PackStep(st, rawPara, maxChars, overlap).chunks == st.chunks
    ensures PackStep(st, rawPara, maxChars, overlap).current == st.current + Strip(rawPara) + "\n\n"
    ensures |PackStep(st, rawPara, maxChars, overlap).current| < maxChars + 2
  {
  }

  /** A step that emits a chunk emits the stripped old `current_chunk` and restarts from its last
      `overlap` characters (none when it was not longer than `overlap`), then the paragraph. */
  lemma FlushCarriesOverlap(st: Packing, rawPara: string, maxChars: int, overlap: nat)
    requires PackStep(st, rawPara, maxChars, overlap).chunks != st.chunks
    ensures var next := PackStep(st, rawPara, maxChars, overlap);
      && NonBlank(rawPara) && |st.current| + |Strip(rawPara)| >= maxChars
      && next.chunks == st.chunks + [Strip(st.current)]
      && (0 < overlap < |st.current| ==> next.current == st.current[|st.current| - overlap..] + Strip(rawPara) + "\n\n")
      && (|st.current| <= overlap ==> next.current == Strip(rawPara) + "\n\n")
  {
    var para := Strip(rawPara);
    if |st.current| <= overlap {
      assert OverlapTail(st.current, overlap) + para == para;
    }
  }

  /** A first paragraph that alone reaches the budget flushes the still empty `current_chunk`:
      smart_chunk emits an empty chunk, which only the final length filter removes. */
  lemma LongFirstParagraphFlushesEmpty(rawPara: string, maxChars: int, overlap: nat)
    requires NonBlank(rawPara) && |Strip(rawPara)| >= maxChars
    ensures PackStep(Packing([], ""), rawPara, maxChars, overlap) == Packing([""], Strip(rawPara) + "\n\n")
    ensures !IsLarge("")
  {
  }

  /** With no overlap the whole flushed `current_chunk` is carried over, because `s[-0:]` is all
      of `s`. */
  lemma ZeroOverlapRepeatsChunk(st: Packing, rawPara: string, maxChars: int)
    requires NonBlank(rawPara) && st.current != []
    requires |st.current| + |Strip(rawPara)| >= maxChars
    ensures PackStep(st, rawPara, maxChars, 0).current == st.current + Strip(rawPara) + "\n\n"
  {
  }

  /** `k` occurs somewhere in `s`. */
  ghost predicate Occurs(s: string, k: string)
  {
    exists i: nat :: OccursAt(s, k, i)
  }

  /** Stripping keeps every piece that itself has no whitespace at its ends. */
  lemma OccursInStrip(s: string, q: string)
    requires q != [] && !IsSpace(q[0]) && !IsSpace(q[|q| - 1])
    requires Occurs(s, q)
    ensures Occurs(Strip(s), q)
  {
    var a, r := LeadingSpaces(s), Strip(s);
    assert a + |r| <= |s| && r == s[a..a + |r|];
    var i: nat :| OccursAt(s, q, i);
    OccursInside(s, q, i, a, r);
  }

  /** An occurrence of a piece with visible ends lies inside any slice that only whitespace
      surrounds. */
  lemma OccursInside(s: string, q: string, i: nat, a: nat, r: string)
    requires q != [] && !IsSpace(q[0]) && !IsSpace(q[|q| - 1])
    requires OccursAt(s, q, i) && a + |r| <= |s| && r == s[a..a + |r|]
    requires forall k :: 0 <= k < a ==> IsSpace(s[k])
    requires forall k :: a + |r| <= k < |s| ==> IsSpace(s[k])
    ensures a <= i && OccursAt(r, q, i - a) && Occurs(r, q)
  {
    var b := a + |r|;
    var n := |q|;
    assert s[i] == q[0] && s[i + n - 1] == q[n - 1];
    assert a <= i && i + n <= b;
    SliceOfSlice(s, a, b, i - a, i - a + n);
    assert OccursAt(r, q, i - a);
  }

  lemma OccursInExtension(s: string, t: string, q: string)
    requires Occurs(s, q)
    ensures Occurs(s + t, q)
  {
    var i: nat :| OccursAt(s, q, i);
    assert (s + t)[i..i + |q|] == s[i..i + |q|];
    assert OccursAt(s + t, q, i);
  }

  /** Every paragraph packed so far is in an emitted chunk or in `current_chunk`. */
  ghost predicate Covers(st: Packing, paras: seq<string>)
  {
    forall j :: 0 <= j < |paras| && NonBlank(paras[j]) ==>
      Occurs(st.current, Strip(paras[j])) || exists c :: c in st.chunks && Occurs(c, Strip(paras[j]))
  }

  /** The paragraph a step takes is in the new `current_chunk`. */
  lemma StepHoldsParagraph(st: Packing, x: string, maxChars: int, overlap: nat)
    requires NonBlank(x)
    ensures Occurs(PackStep(st, x, maxChars, overlap).current, Strip(x))
  {
    var para := Strip(x);
    var head := if |st.current| + |para| < maxChars then st.current else OverlapTail(st.current, overlap);
    var cur := head + para + "\n\n";
    assert PackStep(st, x, maxChars, overlap).current == cur;
    assert cur[|head|..|head| + |para|] == para;
    assert OccursAt(cur, para, |head|);
  }

  /** A piece covered before a step is covered after it: appending keeps it in `current_chunk`,
      flushing moves it into the emitted chunk. */
  lemma StepKeepsCovered(st: Packing, x: string, maxChars: int, overlap: nat, q: string)
    requires q != [] && !IsSpace(q[0]) && !IsSpace(q[|q| - 1])
    requires Occurs(st.current, q) || exists c :: c in st.chunks && Occurs(c, q)
    ensures var next := PackStep(st, x, maxChars, overlap);
      Occurs(next.current, q) || exists c :: c in next.chunks && Occurs(c, q)
  {
    var para := Strip(x);
    var next := PackStep(st, x, maxChars, overlap);
    if para == [] {
    } else if Occurs(st.current, q) {
      if |st.current| + |para| < maxChars {
        OccursInExtension(st.current, para + "\n\n", q);
        assert next.current == st.current + (para + "\n\n");
      } else {
        OccursInStrip(st.current, q);
        assert Strip(st.current) in next.chunks;
      }
    } else {
      var c :| c in st.chunks && Occurs(c, q);
      assert c in next.chunks;
    }
  }

  lemma {:induction false} PackCovers(paras: seq<string>, maxChars: int, overlap: nat)
    ensures Covers(Pack(paras, Packing([], ""), maxChars, overlap), paras)
    decreases |paras|
  {
    if paras != [] {
      var pre := paras[..|paras| - 1];
      var x := paras[|paras| - 1];
      var st := Pack(pre, Packing([], ""), maxChars, overlap);
      PackCovers(pre, maxChars, overlap);
      forall j | 0 <= j < |paras| && NonBlank(paras[j])
        ensures var next := PackStep(st, x, maxChars, overlap);
          Occurs(next.current, Strip(paras[j])) || exists c :: c in next.chunks && Occurs(c, Strip(paras[j]))
      {
        if j == |paras| - 1 {
          StepHoldsParagraph(st, x, maxChars, overlap);
        } else {
          assert paras[j] == pre[j];
          StepKeepsCovered(st, x, maxChars, overlap, Strip(paras[j]));
        }
      }
    }
  }

  /** What is covered once the whole section is packed is in one of the section's chunks. */
  lemma EndCovered(section: string, maxChars: int, overlap: nat, q: string)
    requires q != [] && !IsSpace(q[0]) && !IsSpace(q[|q| - 1])
    requires var end := Pack(Paragraphs(section), Packing([], ""), maxChars, overlap);
      Occurs(end.current, q) || exists c :: c in end.chunks && Occurs(c, q)
    ensures exists c :: c in SectionChunks(section, maxChars, overlap) && Occurs(c, q)
  {
    var end := Pack(Paragraphs(section), Packing([], ""), maxChars, overlap);
    var all := SectionChunks(section, maxChars, overlap);
    assert all == end.chunks + (if Strip(end.current) != [] then [Strip(end.current)] else []);
    if Occurs(end.current, q) {
      OccursInStrip(end.current, q);
      var i: nat :| OccursAt(Strip(end.current), q, i);
      assert Strip(end.current) in all;
    } else {
      var c :| c in end.chunks && Occurs(c, q);
      assert c in all;
    }
  }

  lemma ParagraphInSection(section: string, maxChars: int, overlap: nat, j: nat)
    requires j < |Paragraphs(section)| && NonBlank(Paragraphs(section)[j])
    ensures exists c :: c in SectionChunks(section, maxChars, overlap) && Occurs(c, Strip(Paragraphs(section)[j]))
  {
    PackCovers(Paragraphs(section), maxChars, overlap);
    EndCovered(section, maxChars, overlap, Strip(Paragraphs(section)[j]));
  }

  /** No paragraph of a section is lost: every paragraph that is not blank occurs, stripped, in one
      of the section's chunks. */
  lemma SectionKeepsParagraphs(section: string, maxChars: int, overlap: nat)
    ensures var paras := Paragraphs(section);
      forall j :: 0 <= j < |paras| && NonBlank(paras[j]) ==>
        exists c :: c in SectionChunks(section, maxChars, overlap) && Occurs(c, Strip(paras[j]))
  {
    var paras := Paragraphs(section);
    forall j | 0 <= j < |paras| && NonBlank(paras[j])
      ensures exists c :: c in SectionChunks(section, maxChars, overlap) && Occurs(c, Strip(paras[j]))
    {
      ParagraphInSection(section, maxChars, overlap, j);
    }
  }

  /** The position, among the section's chunks, of the chunk that paragraph `j` is packed into:
      the number of chunks already emitted once it has been taken. */
  function Slot(paras: seq<string>, j: nat, maxChars: int, overlap: nat): nat
    requires j < |paras|
  {
    |Pack(paras[..j + 1], Packing([], ""), maxChars, overlap).chunks|
  }

  /** Packing never rewrites an emitted chunk: the chunks after `ps` are a prefix of those after
      `ps + rest`. */
  lemma {:induction false} ChunksGrow(ps: seq<string>, rest: seq<string>, st: Packing, maxChars: int, overlap: nat)
    ensures Pack(ps, st, maxChars, overlap).chunks <= Pack(ps + rest, st, maxChars, overlap).chunks
    decreases |rest|
  {
    if rest != [] {
      var rest' := rest[..|rest| - 1];
      var y := rest[|rest| - 1];
      ChunksGrow(ps, rest', st, maxChars, overlap);
      SnocSplit(ps, rest);
      PackSnoc(ps + rest', y, st, maxChars, overlap);
      var before := Pack(ps + rest', st, maxChars, overlap);
      assert before.chunks <= PackStep(before, y, maxChars, overlap).chunks;
    } else {
      assert ps + rest == ps;
    }
  }

  /** `q` is in the chunk at position `n`: still in `current_chunk` while only `n` chunks have
      been emitted, or in the emitted chunk at that position. */
  ghost predicate InSlot(st: Packing, n: nat, q: string)
  {
    (|st.chunks| == n && Occurs(st.current, q)) || (|st.chunks| > n && Occurs(st.chunks[n], q))
  }

  /** A step keeps a piece with visible ends in its slot. */
  lemma StepKeepsSlot(st: Packing, x: string, maxChars: int, overlap: nat, n: nat, q: string)
    requires q != [] && !IsSpace(q[0]) && !IsSpace(q[|q| - 1])
    requires InSlot(st, n, q)
    ensures InSlot(PackStep(st, x, maxChars, overlap), n, q)
  {
    var next := PackStep(st, x, maxChars, overlap);
    var para := Strip(x);
    if para == [] {
    } else if |st.current| + |para| < maxChars {
      if |st.chunks| == n {
        OccursInExtension(st.current, para + "\n\n", q);
        assert next.current == st.current + (para + "\n\n");
      }
    } else {
      assert next.chunks == st.chunks + [Strip(st.current)];
      if |st.chunks| == n {
        OccursInStrip(st.current, q);
        assert next.chunks[n] == Strip(st.current);
      } else {
        assert next.chunks[n] == st.chunks[n];
      }
    }
  }

  /** The paragraph a step takes is in the slot the step leaves open. */
  lemma SlotStart(head: seq<string>, x: string, maxChars: int, overlap: nat)
    requires NonBlank(x)
    ensures var st := Pack(head + [x], Packing([], ""), maxChars, overlap);
      InSlot(st, |st.chunks|, Strip(x))
  {
    PackSnoc(head, x, Packing([], ""), maxChars, overlap);
    StepHoldsParagraph(Pack(head, Packing([], ""), maxChars, overlap), x, maxChars, overlap);
  }

  /** Packing `a` and then `b` is packing `a + b`. */
  lemma {:induction false} PackConcat(a: seq<string>, b: seq<string>, st: Packing, maxChars: int, overlap: nat)
    ensures Pack(a + b, st, maxChars, overlap) == Pack(b, Pack(a, st, maxChars, overlap), maxChars, overlap)
    decreases |b|
  {
    if b == [] {
      assert a + b == a;
    } else {
      PackConcat(a, b[..|b| - 1], st, maxChars, overlap);
      SnocSplit(a, b);
      PackSnoc(a + b[..|b| - 1], b[|b| - 1], st, maxChars, overlap);
    }
  }

  /** A piece in its slot stays there whatever paragraphs follow. */
  lemma {:induction false} StaysInSlot(rest: seq<string>, st: Packing, maxChars: int, overlap: nat, n: nat, q: string)
    requires q != [] && !IsSpace(q[0]) && !IsSpace(q[|q| - 1])
    requires InSlot(st, n, q)
    ensures InSlot(Pack(rest, st, maxChars, overlap), n, q)
    decreases |rest|
  {
    if rest != [] {
      StaysInSlot(rest[..|rest| - 1], st, maxChars, overlap, n, q);
      StepKeepsSlot(Pack(rest[..|rest| - 1], st, maxChars, overlap), rest[|rest| - 1], maxChars, overlap, n, q);
    }
  }

  /** What is in slot `n` at the end of a section is in the section's chunk at position `n`. */
  lemma EndSlot(end: Packing, n: nat, q: string)
    requires q != [] && !IsSpace(q[0]) && !IsSpace(q[|q| - 1])
    requires InSlot(end, n, q)
    ensures var chunks := end.chunks + (if Strip(end.current) != [] then [Strip(end.current)] else []);
      n < |chunks| && Occurs(chunks[n], q)
  {
    var chunks := end.chunks + (if Strip(end.current) != [] then [Strip(end.current)] else []);
    if |end.chunks| == n {
      OccursInStrip(end.current, q);
      var i: nat :| OccursAt(Strip(end.current), q, i);
      assert Strip(end.current) != [];
      assert chunks[n] == Strip(end.current);
    } else {
      assert chunks[n] == end.chunks[n];
    }
  }

  /** A later paragraph never has an earlier slot. */
  lemma SlotsOrdered(paras: seq<string>, maxChars: int, overlap: nat, j: nat, k: nat)
    requires j <= k < |paras|
    ensures Slot(paras, j, maxChars, overlap) <= Slot(paras, k, maxChars, overlap)
  {
    ChunksGrow(paras[..j + 1], paras[j + 1..k + 1], Packing([], ""), maxChars, overlap);
    CutAt(paras, j + 1, k + 1);
  }

  /** Once every paragraph is packed, paragraph `j` is still in its slot. */
  lemma SlotHolds(paras: seq<string>, maxChars: int, overlap: nat, j: nat)
    requires j < |paras| && NonBlank(paras[j])
    ensures InSlot(Pack(paras, Packing([], ""), maxChars, overlap), Slot(paras, j, maxChars, overlap), Strip(paras[j]))
  {
    var init := Packing([], "");
    var start := Pack(paras[..j + 1], init, maxChars, overlap);
    TakeOneMore(paras, j);
    SlotStart(paras[..j], paras[j], maxChars, overlap);
    StaysInSlot(paras[j + 1..], start, maxChars, overlap, |start.chunks|, Strip(paras[j]));
    PackConcat(paras[..j + 1], paras[j + 1..], init, maxChars, overlap);
    CutAt(paras, j + 1, j + 1);
  }

  /** Packing follows paragraph order: each paragraph that is not blank ends up, stripped, in
      the chunk at its slot, and a later paragraph never has an earlier slot. */
  lemma PackedInOrder(paras: seq<string>, maxChars: int, overlap: nat, j: nat, k: nat)
    requires j <= k < |paras| && NonBlank(paras[j])
    ensures var end := Pack(paras, Packing([], ""), maxChars, overlap);
      var chunks := end.chunks + (if Strip(end.current) != [] then [Strip(end.current)] else []);
      && Slot(paras, j, maxChars, overlap) <= Slot(paras, k, maxChars, overlap)
      && Slot(paras, j, maxChars, overlap) < |chunks|
      && Occurs(chunks[Slot(paras, j, maxChars, overlap)], Strip(paras[j]))
  {
    SlotsOrdered(paras, maxChars, overlap, j, k);
    SlotHolds(paras, maxChars, overlap, j);
    EndSlot(Pack(paras, Packing([], ""), maxChars, overlap), Slot(paras, j, maxChars, overlap), Strip(paras[j]));
  }

  /** Chunks follow paragraph order within a section: each paragraph that is not blank occurs,
      stripped, in the section's chunk at its slot, and a later paragraph never has an earlier
      slot. */
  lemma ParagraphsInChunkOrder(section: string, maxChars: int, overlap: nat, j: nat, k: nat)
    requires j <= k < |Paragraphs(section)|
    requires NonBlank(Paragraphs(section)[j])
    ensures var paras := Paragraphs(section);
      var chunks := SectionChunks(section, maxChars, overlap);
      && Slot(paras, j, maxChars, overlap) <= Slot(paras, k, maxChars, overlap)
      && Slot(paras, j, maxChars, overlap) < |chunks|
      && Occurs(chunks[Slot(paras, j, maxChars, overlap)], Strip(paras[j]))
  {
    PackedInOrder(Paragraphs(section), maxChars, overlap, j, k);
  }

  /** The chunks come section by section: a chunk belongs to the output exactly when it is a
      chunk of one of the sections, so none mixes two sections. */
  lemma ChunksComeFromSections(secs: seq<string>, maxChars: int, overlap: nat, c: string)
    ensures c in ChunksOfSections(secs, maxChars, overlap) <==>
      exists k :: 0 <= k < |secs| && c in SectionChunks(secs[k], maxChars, overlap)
  {
    var parts := SectionChunkLists(secs, maxChars, overlap);
    ConcatMember(parts, c);
    forall k | 0 <= k < |secs| ensures parts[k] == SectionChunks(secs[k], maxChars, overlap) {
      MapAt(SectionChunker(maxChars, overlap), secs, k);
    }
  }

  lemma MemberOfFilter<T>(keep: T -> bool, s: seq<T>, x: T)
    requires x in s && keep(x)
    ensures x in Filter(keep, s)
  {
    FilterCount(keep, s, x);
    assert multiset(Filter(keep, s))[x] > 0;
  }

  /** A paragraph with more than 200 characters once stripped always reaches the output of
      smart_chunk, inside some chunk. */
  lemma LongParagraphsSurvive(text: string, maxChars: int, overlap: nat, k: nat, j: nat)
    requires k < |Sections(text)|
    requires j < |Paragraphs(Sections(text)[k])|
    requires |Strip(Paragraphs(Sections(text)[k])[j])| > MIN_CHUNK
    ensures exists c :: c in SmartChunks(text, maxChars, overlap) && Occurs(c, Strip(Paragraphs(Sections(text)[k])[j]))
  {
    var secs := Sections(text);
    var q := Strip(Paragraphs(secs[k])[j]);
    SectionKeepsParagraphs(secs[k], maxChars, overlap);
    var c :| c in SectionChunks(secs[k], maxChars, overlap) && Occurs(c, q);
    ChunksComeFromSections(secs, maxChars, overlap, c);
    var i: nat :| OccursAt(c, q, i);
    assert |c| >= |q|;
    MemberOfFilter(IsLarge, ChunksOfSections(secs, maxChars, overlap), c);
  }
}
