/** Stage 1: the pasted text becomes a header and rows of text cells
    (`pd.read_csv(StringIO(txt), delim_whitespace=True)`, line 45, preceded by
    the blank-input check of line 39). */
module TableParser {
  import opened Outcomes

  /** Characters that split a line into fields. */
  const FieldSeparators: set<char> := {' ', '\t'}

  /** Characters that end a line. */
  const LineBreaks: set<char> := {'\n', '\r'}

  /** Python `str.isspace`: the characters `str.strip()` removes. */
  predicate IsPyWhitespace(c: char) {
    var k := c as int;
    k == 0x20 || (0x09 <= k <= 0x0d) || (0x1c <= k <= 0x1f) || k == 0x85 || k == 0xa0
    || k == 0x1680 || (0x2000 <= k <= 0x200a) || k == 0x2028 || k == 0x2029
    || k == 0x202f || k == 0x205f || k == 0x3000
  }

  /** `not txt.strip()`: the text has nothing but whitespace. */
  predicate IsBlank(text: string) {
    forall i :: 0 <= i < |text| ==> IsPyWhitespace(text[i])
  }

  /** Length of the longest prefix of `s` free of separators. */
  function RunLength(s: string, seps: set<char>): (n: nat)
    ensures n <= |s|
    ensures forall i :: 0 <= i < n ==> s[i] !in seps
    ensures n < |s| ==> s[n] in seps
    ensures s != [] && s[0] !in seps ==> n >= 1
  {
    if s == [] || s[0] in seps then 0 else 1 + RunLength(s[1..], seps)
  }

  /** The maximal separator-free runs of `s`, in order: splitting on runs of
      separators and discarding empty pieces. */
  function Runs(s: string, seps: set<char>): seq<string>
    decreases |s|
  {
    if s == [] then []
    else if s[0] in seps then Runs(s[1..], seps)
    else
      var n := RunLength(s, seps);
      [s[..n]] + Runs(s[n..], seps)
  }

  /** A token is a non-empty string without any of the given separators. */
  predicate IsToken(t: string, seps: set<char>) {
    t != [] && forall i :: 0 <= i < |t| ==> t[i] !in seps
  }

  predicate AllTokens(ts: seq<string>, seps: set<char>) {
    forall k :: 0 <= k < |ts| ==> IsToken(ts[k], seps)
  }

  /** The fields of one line. */
  function Fields(line: string): seq<string> { Runs(line, FieldSeparators) }

  /** The lines of the text (empty lines already dropped). */
  function Lines(text: string): seq<string> { Runs(text, LineBreaks) }

  /** The field lists of the lines that hold at least one field; blank
      lines are skipped. */
  function TokenizedLines(lines: seq<string>): seq<seq<string>>
  {
    if lines == [] then []
    else
      var f := Fields(lines[0]);
      (if f == [] then [] else [f]) + TokenizedLines(lines[1..])
  }

  /** A header and its data rows, all as text. */
  datatype RawTable = RawTable(header: seq<string>, rows: seq<seq<string>>)

  /** Every row has as many cells as the header, and there is a column. */
  predicate WellFormed(t: RawTable) {
    t.header != [] && forall i :: 0 <= i < |t.rows| ==> |t.rows[i]| == |t.header|
  }

  /** The first row, from `from` on, whose width is not `width`. */
  function FirstMismatch(rows: seq<seq<string>>, width: nat, from: nat): (r: Option<nat>)
    requires from <= |rows|
    ensures r.None? ==> forall i :: from <= i < |rows| ==> |rows[i]| == width
    ensures r.Some? ==> from <= r.value < |rows| && |rows[r.value]| != width
    ensures r.Some? ==> forall i :: from <= i < r.value ==> |rows[i]| == width
    decreases |rows| - from
  {
    if from == |rows| then None
    else if |rows[from]| != width then Some(from)
    else FirstMismatch(rows, width, from + 1)
  }

  /** The first line holding a field is the header; every later such line is a
      data row with exactly the header's number of fields. */
  function ParseTable(text: string): (r: Result<RawTable>)
    ensures r.Ok? ==> WellFormed(r.value)
    ensures r.Ok? ==> AllTokens(r.value.header, FieldSeparators + LineBreaks)
    ensures r.Err? ==> r.error.EmptyInput? || (r.error.MalformedRow? && r.error.expected != r.error.found)
    ensures r == Err(EmptyInput) <==> TokenizedLines(Lines(text)) == []
    ensures var ls := TokenizedLines(Lines(text));
            r.Ok? <==> ls != [] && forall i :: 1 <= i < |ls| ==> |ls[i]| == |ls[0]|
    ensures var ls := TokenizedLines(Lines(text));
            r.Ok? ==> r.value == RawTable(ls[0], ls[1..])
    ensures var ls := TokenizedLines(Lines(text));
            r.Err? && r.error.MalformedRow? ==>
              r.error.row + 1 < |ls| && r.error.expected == |ls[0]| && r.error.found == |ls[r.error.row + 1]|
  {
    var ls := TokenizedLines(Lines(text));
    if ls == [] then Err(EmptyInput)
    else
      var header, rows := ls[0], ls[1..];
      match FirstMismatch(rows, |header|, 0)
      case Some(i) => Err(MalformedRow(i, |header|, |rows[i]|))
      case None =>
        RunsAreTokens(text, LineBreaks);
        TokenizedLinesAreTokens(Lines(text));
        Ok(RawTable(header, rows))
  }

  // ---------------------------------------------------------------------
  // Properties of the tokeniser

  /** Every run is a token. */
  lemma {:induction false} RunsAreTokens(s: string, seps: set<char>)
    ensures AllTokens(Runs(s, seps), seps)
    decreases |s|
  {
    if s == [] {
    } else if s[0] in seps {
      RunsAreTokens(s[1..], seps);
    } else {
      var n := RunLength(s, seps);
      RunsAreTokens(s[n..], seps);
    }
  }

  /** Every field of every tokenised line is a token free of field
      separators and line breaks, and no tokenised line is empty. */
  lemma {:induction false} TokenizedLinesAreTokens(lines: seq<string>)
    requires AllTokens(lines, LineBreaks)
    ensures forall k :: 0 <= k < |TokenizedLines(lines)| ==>
              TokenizedLines(lines)[k] != [] && AllTokens(TokenizedLines(lines)[k], FieldSeparators + LineBreaks)
    decreases |lines|
  {
    if lines != [] {
      var f := Fields(lines[0]);
      RunsAreTokens(lines[0], FieldSeparators);
      RunCharsOccur(lines[0], FieldSeparators);
      TokenizedLinesAreTokens(lines[1..]);
    }
  }

  /** Every character of a run occurs in the string it was cut from;
      `RunIsSlice` says where. */
  lemma {:induction false} RunCharsOccur(s: string, seps: set<char>)
    ensures forall k, q :: 0 <= k < |Runs(s, seps)| && 0 <= q < |Runs(s, seps)[k]| ==> Runs(s, seps)[k][q] in s
    decreases |s|
  {
    if s == [] {
    } else if s[0] in seps {
      RunCharsOccur(s[1..], seps);
    } else {
      var n := RunLength(s, seps);
      RunCharsOccur(s[n..], seps);
      var r := Runs(s, seps);
      forall k, q | 0 <= k < |r| && 0 <= q < |r[k]| ensures r[k][q] in s {
        if k == 0 {
          assert r[0] == s[..n];
          assert s[q] == r[k][q];
        } else {
          assert r[k] == Runs(s[n..], seps)[k - 1];
          assert r[k][q] in s[n..];
        }
      }
    }
  }

  /** t occurs in s as the slice starting at position a. */
  predicate SliceAt(s: string, t: string, a: int) {
    0 <= a && a + |t| <= |s| && t == s[a..a + |t|]
  }

  /** A slice of s[d..] is a slice of s, d positions further on. */
  lemma SliceShift(s: string, t: string, d: nat, a: int)
    requires d <= |s| && SliceAt(s[d..], t, a)
    ensures SliceAt(s, t, a + d)
  {
    assert s[d..][a..a + |t|] == s[a + d..a + d + |t|];
  }

  /** Run k is a contiguous slice of the string it was cut from. */
  lemma {:induction false} RunIsSlice(s: string, seps: set<char>, k: nat)
    requires k < |Runs(s, seps)|
    ensures exists a :: SliceAt(s, Runs(s, seps)[k], a)
    decreases |s|
  {
    if s[0] in seps {
      RunIsSlice(s[1..], seps, k);
      var a :| SliceAt(s[1..], Runs(s[1..], seps)[k], a);
      SliceShift(s, Runs(s, seps)[k], 1, a);
    } else {
      var n := RunLength(s, seps);
      if k == 0 {
        assert SliceAt(s, Runs(s, seps)[0], 0);
      } else {
        RunIsSlice(s[n..], seps, k - 1);
        var t := Runs(s[n..], seps)[k - 1];
        assert Runs(s, seps)[k] == t;
        var a :| SliceAt(s[n..], t, a);
        SliceShift(s, t, n, a);
      }
    }
  }

  /** The character at every non-separator position p of s lies inside some
      run, at that same position: splitting loses no such character. */
  lemma {:induction false} RunsCoverAt(s: string, seps: set<char>, p: nat)
    requires p < |s| && s[p] !in seps
    ensures exists k, a :: 0 <= k < |Runs(s, seps)| && SliceAt(s, Runs(s, seps)[k], a) &&
                           a <= p < a + |Runs(s, seps)[k]|
    decreases |s|
  {
    if s[0] in seps {
      RunsCoverAt(s[1..], seps, p - 1);
      var k, a :| 0 <= k < |Runs(s[1..], seps)| && SliceAt(s[1..], Runs(s[1..], seps)[k], a) &&
                  a <= p - 1 < a + |Runs(s[1..], seps)[k]|;
      SliceShift(s, Runs(s, seps)[k], 1, a);
    } else {
      var n := RunLength(s, seps);
      if p < n {
        assert SliceAt(s, Runs(s, seps)[0], 0);
      } else {
        RunsCoverAt(s[n..], seps, p - n);
        var k, a :| 0 <= k < |Runs(s[n..], seps)| && SliceAt(s[n..], Runs(s[n..], seps)[k], a) &&
                    a <= p - n < a + |Runs(s[n..], seps)[k]|;
        var t := Runs(s[n..], seps)[k];
        assert Runs(s, seps)[k + 1] == t;
        SliceShift(s, t, n, a);
      }
    }
  }

  /** Text that is not blank always yields a header line. */
  lemma NonBlankHasHeader(text: string)
    requires !IsBlank(text)
    ensures TokenizedLines(Lines(text)) != []
  {
    var p :| 0 <= p < |text| && !IsPyWhitespace(text[p]);
    RunsCoverAt(text, LineBreaks, p);
    var ls := Lines(text);
    var k, a :| 0 <= k < |ls| && SliceAt(text, ls[k], a) && a <= p < a + |ls[k]|;
    assert ls[k][p - a] == text[p];
    RunsCoverAt(ls[k], FieldSeparators, p - a);
    TokenizedLinesKeepsFields(ls, k);
  }

  lemma {:induction false} TokenizedLinesKeepsFields(lines: seq<string>, k: nat)
    requires k < |lines| && Fields(lines[k]) != []
    ensures TokenizedLines(lines) != []
    decreases k
  {
    if k > 0 && Fields(lines[0]) == [] {
      TokenizedLinesKeepsFields(lines[1..], k - 1);
    }
  }

  /** The blank-input error is reported exactly for blank text. */
  lemma ParseTableEmptyInput(text: string)
    ensures ParseTable(text) == Err(EmptyInput) ==> IsBlank(text)
  {
    if !IsBlank(text) {
      NonBlankHasHeader(text);
    }
  }

  // ---------------------------------------------------------------------
  // Round trip: rendering a table and parsing it back

  /** The tokens joined by single copies of `c`. */
  function Join(ts: seq<string>, c: char): string
  {
    if ts == [] then [] else if |ts| == 1 then ts[0] else ts[0] + [c] + Join(ts[1..], c)
  }

  lemma {:induction false} RunLengthOfToken(t: string, rest: string, seps: set<char>)
    requires IsToken(t, seps)
    requires rest == [] || rest[0] in seps
    ensures RunLength(t + rest, seps) == |t|
    decreases |t|
  {
    if |t| > 1 {
      assert (t + rest)[1..] == t[1..] + rest;
      RunLengthOfToken(t[1..], rest, seps);
    } else {
      assert (t + rest)[1..] == rest;
    }
  }

  /** Splitting tokens joined by a separator gives the tokens back. */
  lemma {:induction false} RunsOfJoin(ts: seq<string>, c: char, seps: set<char>)
    requires c in seps && AllTokens(ts, seps)
    ensures Runs(Join(ts, c), seps) == ts
    decreases |ts|
  {
    if |ts| == 1 {
      var t := ts[0];
      RunLengthOfToken(t, [], seps);
      assert t[..|t|] == t && t[|t|..] == [];
    } else if |ts| > 1 {
      var t := ts[0];
      var rest := [c] + Join(ts[1..], c);
      var s := t + rest;
      assert Join(ts, c) == s;
      RunLengthOfToken(t, rest, seps);
      assert s[..|t|] == t && s[|t|..] == rest;
      assert rest[1..] == Join(ts[1..], c);
      RunsOfJoin(ts[1..], c, seps);
    }
  }

  /** Rendering: fields joined by spaces, lines joined by newlines. */
  function RenderLines(rows: seq<seq<string>>): seq<string>
  {
    if rows == [] then [] else [Join(rows[0], ' ')] + RenderLines(rows[1..])
  }

  function Render(t: RawTable): string
  {
    Join(RenderLines([t.header] + t.rows), '\n')
  }

  lemma {:induction false} JoinIsToken(ts: seq<string>, c: char, seps: set<char>)
    requires ts != [] && c !in seps && AllTokens(ts, seps)
    ensures IsToken(Join(ts, c), seps)
    decreases |ts|
  {
    if |ts| > 1 {
      JoinIsToken(ts[1..], c, seps);
      var j := Join(ts, c);
      assert j == ts[0] + [c] + Join(ts[1..], c);
      forall i | 0 <= i < |j| ensures j[i] !in seps {
        if i < |ts[0]| {
          assert j[i] == ts[0][i];
        } else if i > |ts[0]| {
          assert j[i] == Join(ts[1..], c)[i - |ts[0]| - 1];
        }
      }
    }
  }

  lemma {:induction false} RenderLinesAreTokens(rows: seq<seq<string>>)
    requires forall k :: 0 <= k < |rows| ==> rows[k] != [] && AllTokens(rows[k], FieldSeparators + LineBreaks)
    ensures |RenderLines(rows)| == |rows|
    ensures AllTokens(RenderLines(rows), LineBreaks)
    ensures TokenizedLines(RenderLines(rows)) == rows
    decreases |rows|
  {
    if rows != [] {
      var fs := rows[0];
      assert AllTokens(fs, FieldSeparators) by {
        forall k | 0 <= k < |fs| ensures IsToken(fs[k], FieldSeparators) {
          assert IsToken(fs[k], FieldSeparators + LineBreaks);
        }
      }
      assert AllTokens(fs, LineBreaks) by {
        forall k | 0 <= k < |fs| ensures IsToken(fs[k], LineBreaks) {
          assert IsToken(fs[k], FieldSeparators + LineBreaks);
        }
      }
      JoinIsToken(fs, ' ', LineBreaks);
      RunsOfJoin(fs, ' ', FieldSeparators);
      RenderLinesAreTokens(rows[1..]);
      assert RenderLines(rows)[1..] == RenderLines(rows[1..]);
    }
  }

  /** A well-formed table whose cells are tokens survives rendering and
      parsing unchanged. */
  lemma ParseRender(t: RawTable)
    requires WellFormed(t)
    requires AllTokens(t.header, FieldSeparators + LineBreaks)
    requires forall i :: 0 <= i < |t.rows| ==> AllTokens(t.rows[i], FieldSeparators + LineBreaks)
    ensures ParseTable(Render(t)) == Ok(t)
  {
    var all := [t.header] + t.rows;
    assert forall k :: 0 <= k < |all| ==> all[k] != [] && AllTokens(all[k], FieldSeparators + LineBreaks) by {
      forall k | 0 <= k < |all| ensures all[k] != [] && AllTokens(all[k], FieldSeparators + LineBreaks) {
        if k > 0 { assert all[k] == t.rows[k - 1]; }
      }
    }
    RenderLinesAreTokens(all);
    RunsOfJoin(RenderLines(all), '\n', LineBreaks);
    assert TokenizedLines(Lines(Render(t))) == all;
    assert all[1..] == t.rows;
  }
}
