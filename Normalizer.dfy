/** Stage 2: header cleanup, branch-column detection, zero padding of branch
    ids, numeric coercion of every other column, the raw/clipped stock split
    and the required-column check (lines 49-72). The data frame is a `Frame`
    object whose methods rewrite it in place, one pandas statement each; the
    functions beside it say what each statement computes. */
module Normalizer {
  import opened Outcomes
  import opened Numerals
  import opened TableParser

  // ---------------------------------------------------------------------
  // Header cleanup (line 49): strip, then delete every '.'

  function StripLeft(s: string): (r: string)
    ensures |r| <= |s| && r == s[|s| - |r|..]
    ensures forall i :: 0 <= i < |s| - |r| ==> IsPyWhitespace(s[i])
    ensures r == [] || !IsPyWhitespace(r[0])
  {
    if s != [] && IsPyWhitespace(s[0]) then StripLeft(s[1..]) else s
  }

  function StripRight(s: string): (r: string)
    ensures |r| <= |s| && r == s[..|r|]
    ensures forall i :: |r| <= i < |s| ==> IsPyWhitespace(s[i])
    ensures r == [] || !IsPyWhitespace(r[|r| - 1])
  {
    if s != [] && IsPyWhitespace(s[|s| - 1]) then StripRight(s[..|s| - 1]) else s
  }

  /** `s` is `r` at offset `p`, with only whitespace before and after. */
  predicate WithinBlanks(s: string, r: string, p: int) {
    0 <= p <= |s| - |r| && s == s[..p] + r + s[p + |r|..] && IsBlank(s[..p]) && IsBlank(s[p + |r|..])
  }

  lemma SliceSplit(s: string, l: string, r: string, p: nat)
    requires p <= |s| && l == s[p..] && |r| <= |l| && r == l[..|r|]
    ensures s == s[..p] + r + s[p + |r|..] && s[p + |r|..] == l[|r|..]
  {
    calc {
      s;
      s[..p] + l;
      { assert l == r + l[|r|..]; }
      s[..p] + (r + l[|r|..]);
      s[..p] + r + l[|r|..];
    }
  }

  lemma BlankSlice(s: string, a: nat, b: nat)
    requires a <= b <= |s| && forall i :: a <= i < b ==> IsPyWhitespace(s[i])
    ensures IsBlank(s[a..b])
  {
    forall i | 0 <= i < b - a ensures IsPyWhitespace(s[a..b][i]) { assert s[a..b][i] == s[a + i]; }
  }

  /** `str.strip()` keeps a contiguous part of `s`, removing nothing but
      the whitespace on either side of it. */
  lemma StripPadded(s: string)
    ensures WithinBlanks(s, Strip(s), |s| - |StripLeft(s)|)
  {
    var l := StripLeft(s);
    var r := StripRight(l);
    var p := |s| - |l|;
    SliceSplit(s, l, r, p);
    BlankSlice(s, 0, p);
    assert s[..p] == s[0..p];
    BlankSlice(l, |r|, |l|);
    assert l[|r|..] == l[|r|..|l|];
  }

  /** Python `str.strip()`; `StripPadded` says what it removes. */
  function Strip(s: string): (r: string)
    ensures r == [] || (!IsPyWhitespace(r[0]) && !IsPyWhitespace(r[|r| - 1]))
  {
    StripRight(StripLeft(s))
  }

  /** `re.sub(r"\.", "", s)`. */
  function RemoveDots(s: string): (r: string)
    ensures '.' !in r
    ensures '.' !in s ==> r == s
  {
    if s == [] then [] else (if s[0] == '.' then [] else [s[0]]) + RemoveDots(s[1..])
  }

  /** Deleting dots works character by character, so it keeps every other
      character, in order. */
  lemma {:induction false} RemoveDotsAppend(a: string, b: string)
    ensures RemoveDots(a + b) == RemoveDots(a) + RemoveDots(b)
  {
    if a == [] {
      assert a + b == b;
    } else {
      var h := if a[0] == '.' then [] else [a[0]];
      assert (a + b)[0] == a[0] && (a + b)[1..] == a[1..] + b;
      RemoveDotsAppend(a[1..], b);
      calc {
        RemoveDots(a + b);
        h + RemoveDots(a[1..] + b);
        h + (RemoveDots(a[1..]) + RemoveDots(b));
        (h + RemoveDots(a[1..])) + RemoveDots(b);
      }
    }
  }

  lemma RemoveDotsChar(c: char)
    ensures RemoveDots([c]) == if c == '.' then [] else [c]
  {
    assert [c][1..] == [];
  }

  /** Line 49: strip, then delete every dot. */
  function CleanName(s: string): (r: string)
    ensures '.' !in r
  {
    RemoveDots(Strip(s))
  }

  /** A header with a stray trailing period cleans to the bare name. */
  lemma CleanNameExample()
    ensures CleanName("V30D.") == "V30D"
  {
    var v := "V30D.";
    assert !IsPyWhitespace(v[0]) && !IsPyWhitespace(v[|v| - 1]);
    assert StripLeft(v) == v;
    assert StripRight(v) == v;
    assert v == "V30D" + ".";
    RemoveDotsAppend("V30D", ".");
    RemoveDotsChar('.');
    assert '.' !in "V30D";
  }

  function CleanNames(ns: seq<string>): seq<string>
  {
    seq(|ns|, i requires 0 <= i < |ns| => CleanName(ns[i]))
  }

  /** A cleaned name never contains a '.'. When the raw name had no '.', the
      cleaned name is the stripped name, with no whitespace at either end.
      (With a '.' the strip comes first: ".\u000bA" cleans to "\u000bA".) */
  lemma CleanNameShape(s: string)
    ensures '.' !in CleanName(s)
    ensures '.' !in s ==> CleanName(s) == Strip(s)
    ensures '.' !in s ==>
              (CleanName(s) == [] ||
               (!IsPyWhitespace(CleanName(s)[0]) && !IsPyWhitespace(CleanName(s)[|CleanName(s)| - 1])))
  {
    if '.' !in s {
      var l := StripLeft(s);
      var r := Strip(s);
      DotFreeSlice(s, |s| - |l|, |s|);
      assert l == s[|s| - |l|..|s|];
      DotFreeSlice(l, 0, |r|);
      assert r == l[0..|r|];
    }
  }

  lemma DotFreeSlice(s: string, a: nat, b: nat)
    requires a <= b <= |s| && '.' !in s
    ensures '.' !in s[a..b]
  {
    forall i | 0 <= i < b - a ensures s[a..b][i] != '.' { assert s[a..b][i] == s[a + i]; }
  }

  // ---------------------------------------------------------------------
  // Branch column (line 52)

  /** `name.lower().startswith('suc')`. Only 'S' and 's' lower-case to 's'
      (likewise for 'u' and 'c'), and the one character whose lower case is
      longer ('İ') starts with 'i', so checking three characters is exact. */
  predicate HasSucPrefix(name: string) {
    |name| >= 3 && name[0] in {'s', 'S'} && name[1] in {'u', 'U'} && name[2] in {'c', 'C'}
  }

  function FindBranchFrom(names: seq<string>, from: nat): (r: Option<nat>)
    requires from <= |names|
    ensures r.Some? ==> from <= r.value < |names| && HasSucPrefix(names[r.value])
    ensures r.Some? ==> forall j :: from <= j < r.value ==> !HasSucPrefix(names[j])
    ensures r.None? ==> forall j :: from <= j < |names| ==> !HasSucPrefix(names[j])
    decreases |names| - from
  {
    if from == |names| then None
    else if HasSucPrefix(names[from]) then Some(from)
    else FindBranchFrom(names, from + 1)
  }

  /** The first column, in header order, whose name starts with "suc" in any
      case; `None` when there is none (the `[0]` of line 52 then fails). */
  function BranchColumn(names: seq<string>): (r: Option<nat>)
    ensures r.Some? ==> r.value < |names| && HasSucPrefix(names[r.value])
    ensures r.Some? ==> forall j :: 0 <= j < r.value ==> !HasSucPrefix(names[j])
    ensures r.None? <==> forall j :: 0 <= j < |names| ==> !HasSucPrefix(names[j])
  {
    FindBranchFrom(names, 0)
  }

  // ---------------------------------------------------------------------
  // Branch id padding (line 53)

  function Zeros(n: nat): (z: string)
    ensures |z| == n && forall i :: 0 <= i < n ==> z[i] == '0'
  {
    if n == 0 then [] else "0" + Zeros(n - 1)
  }

  predicate HasSign(s: string) { s != [] && (s[0] == '+' || s[0] == '-') }

  /** Python `s.zfill(4)`: zeros go on the left up to length 4, after a
      leading sign if there is one; a string of length 4 or more is kept. */
  function ZFill4(s: string): (r: string)
    ensures |r| == if |s| < 4 then 4 else |s|
    ensures |s| >= 4 ==> r == s
    ensures |s| < 4 && !HasSign(s) ==> r[4 - |s|..] == s && forall i :: 0 <= i < 4 - |s| ==> r[i] == '0'
    ensures |s| < 4 && HasSign(s) ==>
              r[0] == s[0] && r[5 - |s|..] == s[1..] && forall i :: 1 <= i < 5 - |s| ==> r[i] == '0'
  {
    if |s| >= 4 then s
    else if HasSign(s) then [s[0]] + Zeros(4 - |s|) + s[1..]
    else Zeros(4 - |s|) + s
  }

  /** Padding never changes the integer an id spells. */
  lemma ZFillKeepsValue(s: string, n: int)
    requires ParseInt(s) == Some(n)
    ensures ParseInt(ZFill4(s)) == Some(n)
  {
    if |s| < 4 {
      var z := Zeros(4 - |s|);
      if HasSign(s) {
        var r := ZFill4(s);
        DigitsValueLeadingZeros(z, s[1..]);
        assert r[1..] == z + s[1..];
      } else {
        DigitsValueLeadingZeros(z, s);
        assert ZFill4(s) == z + s;
      }
    }
  }

  /** Padding a padded id changes nothing. */
  lemma ZFillIdempotent(s: string)
    ensures ZFill4(ZFill4(s)) == ZFill4(s)
  {
  }

  // ---------------------------------------------------------------------
  // Numeric cell cleanup (lines 57-61)

  predicate IsCut(c: char) { c == '/' || c == '|' }

  /** `re.sub(r"[\/\|].*", "", s)`: the part before the first '/' or '|'. */
  function CutAtSeparator(s: string): (r: string)
    ensures |r| <= |s| && r == s[..|r|]
    ensures forall i :: 0 <= i < |r| ==> !IsCut(r[i])
    ensures |r| < |s| ==> IsCut(s[|r|])
  {
    if s == [] || IsCut(s[0]) then [] else [s[0]] + CutAtSeparator(s[1..])
  }

  /** The integer a raw cell stands for: cut at the first '/' or '|', an
      empty remainder reads as "0", then `int(...)`; `None` when that fails. */
  function ParseCell(s: string): (r: Option<int>)
    ensures CutAtSeparator(s) == [] ==> r == Some(0)
    ensures var t := CutAtSeparator(s);
            t != [] ==> (r.Some? <==> AllDigits(t) || (|t| >= 2 && (t[0] == '+' || t[0] == '-') && AllDigits(t[1..])))
    ensures var t := CutAtSeparator(s);
            t != [] && AllDigits(t) ==> r == Some(DigitsValue(t))
  {
    var t := CutAtSeparator(s);
    if t == [] then assert ParseInt("0") == Some(0); ParseInt("0") else ParseInt(t)
  }

  lemma {:induction false} CutOfPrefix(x: string, rest: string)
    requires forall i :: 0 <= i < |x| ==> !IsCut(x[i])
    requires rest == [] || IsCut(rest[0])
    ensures CutAtSeparator(x + rest) == x
    decreases |x|
  {
    if x != [] {
      assert (x + rest)[1..] == x[1..] + rest;
      CutOfPrefix(x[1..], rest);
    }
  }

  /** A rendered integer followed by a '/' or '|' suffix reads as that integer. */
  lemma ParseCellIgnoresSuffix(n: int, c: char, tail: string)
    requires IsCut(c)
    ensures ParseCell(ShowInt(n) + [c] + tail) == Some(n)
    ensures ParseCell(ShowInt(n)) == Some(n)
  {
    var x := ShowInt(n);
    assert forall i :: 0 <= i < |x| ==> !IsCut(x[i]) by {
      if n < 0 {
        assert forall i :: 1 <= i < |x| ==> x[i] == ShowNat(-n)[i - 1];
      }
    }
    assert x + [c] + tail == x + ([c] + tail);
    CutOfPrefix(x, [c] + tail);
    CutOfPrefix(x, []);
    assert x + [] == x;
    ParseShowInt(n);
  }

  /** A cell that is empty, or empty before its suffix, reads as 0. */
  lemma ParseCellEmpty(c: char, tail: string)
    requires IsCut(c)
    ensures ParseCell("") == Some(0)
    ensures ParseCell([c] + tail) == Some(0)
  {
    assert ParseInt("0") == Some(0);
  }

  /** "12/bo" reads as 12 and "7|x" as 7. */
  lemma ParseCellExamples()
    ensures ParseCell("12/bo") == Some(12)
    ensures ParseCell("7|x") == Some(7)
  {
    assert ShowInt(12) == "12";
    assert "12/bo" == ShowInt(12) + ['/'] + "bo";
    ParseCellIgnoresSuffix(12, '/', "bo");
    assert ShowInt(7) == "7";
    assert "7|x" == ShowInt(7) + ['|'] + "x";
    ParseCellIgnoresSuffix(7, '|', "x");
  }

  /** A cell with a letter before any '/' or '|' is not an integer. */
  lemma ParseCellRejects(s: string, p: nat)
    requires p < |s| && !IsDigit(s[p]) && !IsCut(s[p]) && !(p == 0 && s[p] in {'+', '-'})
    requires forall i :: 0 <= i < p ==> !IsCut(s[i])
    ensures ParseCell(s) == None
  {
    var t := CutAtSeparator(s);
    assert |t| > p;
    assert t[p] == s[p];
  }

  lemma ParseCellRejectsAbc()
    ensures ParseCell("abc") == None
  {
    ParseCellRejects("abc", 0);
  }

  // ---------------------------------------------------------------------
  // Cells and columns

  /** A data-frame cell: text as pasted, or an integer after coercion. */
  datatype Cell = Text(s: string) | Num(n: int)

  /** `astype(str)`. */
  function AsStr(c: Cell): string
  {
    match c
    case Text(s) => s
    case Num(n) => ShowInt(n)
  }

  function CellValue(c: Cell): Option<int> { ParseCell(AsStr(c)) }

  predicate ColumnParses(col: seq<Cell>) {
    forall i :: 0 <= i < |col| ==> CellValue(col[i]).Some?
  }

  /** The value each cell of a column coerces to, if any. */
  function CellValues(col: seq<Cell>): (vs: seq<Option<int>>)
    ensures |vs| == |col| && forall i :: 0 <= i < |col| ==> vs[i] == CellValue(col[i])
  {
    seq(|col|, i requires 0 <= i < |col| => CellValue(col[i]))
  }

  /** The first position, from `from` on, holding no value. */
  function FirstNone(vs: seq<Option<int>>, from: nat): (r: Option<nat>)
    requires from <= |vs|
    ensures r.None? <==> forall i :: from <= i < |vs| ==> vs[i].Some?
    ensures r.Some? ==> from <= r.value < |vs| && vs[r.value].None?
    ensures r.Some? ==> forall i :: from <= i < r.value ==> vs[i].Some?
    decreases |vs| - from
  {
    if from == |vs| then None
    else if vs[from].None? then Some(from)
    else FirstNone(vs, from + 1)
  }

  /** `df[c].astype(str)...astype(int)`; applied only to columns that
      coerce, where every cell becomes its parsed value. */
  function NumColumn(col: seq<Cell>): (r: seq<Cell>)
    ensures |r| == |col| && AllNum(r)
  {
    seq(|col|, i requires 0 <= i < |col| => Num(match CellValue(col[i]) case Some(v) => v case None => 0))
  }

  /** `df[suc_col].astype(str).str.zfill(4)`. */
  function PadColumn(col: seq<Cell>): seq<Cell>
  {
    seq(|col|, i requires 0 <= i < |col| => Text(ZFill4(AsStr(col[i]))))
  }

  predicate AllNum(col: seq<Cell>) { forall i :: 0 <= i < |col| ==> col[i].Num? }

  /** `col.clip(lower=0)` on an integer column. */
  function ClipColumn(col: seq<Cell>): (r: seq<Cell>)
    requires AllNum(col)
    ensures |r| == |col| && AllNum(r)
    ensures forall i :: 0 <= i < |col| ==> r[i].n >= 0
    ensures forall i :: 0 <= i < |col| && col[i].n >= 0 ==> r[i].n == col[i].n
    ensures forall i :: 0 <= i < |col| && col[i].n < 0 ==> r[i].n == 0
  {
    seq(|col|, i requires 0 <= i < |col| => Num(if col[i].n < 0 then 0 else col[i].n))
  }

  // ---------------------------------------------------------------------
  // The data frame as values

  /** One name per column and `h` cells per column. */
  predicate Shaped(names: seq<string>, cols: seq<seq<Cell>>, h: nat) {
    |cols| == |names| && forall j :: 0 <= j < |cols| ==> |cols[j]| == h
  }

  /** Every column except the branch column `k` holds integers. */
  predicate NumericExcept(cols: seq<seq<Cell>>, k: nat) {
    forall j :: 0 <= j < |cols| && j != k ==> AllNum(cols[j])
  }

  /** The data frame `read_csv` builds: one text column per header field. */
  function ColumnsOf(t: RawTable): seq<seq<Cell>>
    requires WellFormed(t)
  {
    seq(|t.header|, j requires 0 <= j < |t.header| =>
      seq(|t.rows|, i requires 0 <= i < |t.rows| => Text(t.rows[i][j])))
  }

  function IndexOf(ns: seq<string>, n: string): (r: Option<nat>)
    ensures r.Some? ==> r.value < |ns| && ns[r.value] == n
    ensures r.Some? ==> forall j :: 0 <= j < r.value ==> ns[j] != n
    ensures r.None? <==> n !in ns
  {
    if ns == [] then None
    else if ns[0] == n then Some(0)
    else match IndexOf(ns[1..], n)
      case None => None
      case Some(j) => Some(j + 1)
  }

  /** The first column, from `from` on and other than `k`, that does not coerce. */
  function FirstBadColumn(cols: seq<seq<Cell>>, k: nat, from: nat): (r: Option<nat>)
    requires from <= |cols|
    ensures r.None? ==> forall j :: from <= j < |cols| && j != k ==> ColumnParses(cols[j])
    ensures r.Some? ==> from <= r.value < |cols| && r.value != k && !ColumnParses(cols[r.value])
    ensures r.Some? ==> forall j :: from <= j < r.value && j != k ==> ColumnParses(cols[j])
    decreases |cols| - from
  {
    if from == |cols| then None
    else if from != k && !ColumnParses(cols[from]) then Some(from)
    else FirstBadColumn(cols, k, from + 1)
  }

  /** The error for column `j`, which has a cell that does not coerce. */
  function BadCell(names: seq<string>, cols: seq<seq<Cell>>, j: nat): Error
    requires j < |names| == |cols| && !ColumnParses(cols[j])
  {
    InvalidNumericCell(names[j], FirstNone(CellValues(cols[j]), 0).value)
  }

  /** Lines 54-62: every column but the branch column `k`, in column order,
      becomes integers; the first column with a cell that is not an integer
      stops the run. */
  function Coerced(names: seq<string>, cols: seq<seq<Cell>>, k: nat): (r: Result<seq<seq<Cell>>>)
    requires |names| == |cols| && k < |cols|
    ensures r.Ok? ==> |r.value| == |cols| && r.value[k] == cols[k] && NumericExcept(r.value, k)
    ensures r.Ok? ==> forall j :: 0 <= j < |cols| ==> |r.value[j]| == |cols[j]|
    ensures r.Err? ==> r.error.InvalidNumericCell?
  {
    match FirstBadColumn(cols, k, 0)
    case Some(j) => Err(BadCell(names, cols, j))
    case None => Ok(seq(|cols|, j requires 0 <= j < |cols| => if j == k then cols[j] else NumColumn(cols[j])))
  }

  lemma CoercedFailsAt(names: seq<string>, cols: seq<seq<Cell>>, k: nat, j: nat)
    requires |names| == |cols| && k < |cols| && j < |cols| && j != k && !ColumnParses(cols[j])
    requires forall j' :: 0 <= j' < j && j' != k ==> ColumnParses(cols[j'])
    ensures FirstBadColumn(cols, k, 0) == Some(j)
    ensures Coerced(names, cols, k) == Err(BadCell(names, cols, j))
  {
    assert FirstBadColumn(cols, k, 0) == Some(j);
  }

  lemma CoercedWhenAllParse(names: seq<string>, cols: seq<seq<Cell>>, k: nat, out: seq<seq<Cell>>)
    requires |names| == |cols| == |out| && k < |cols|
    requires forall j :: 0 <= j < |cols| && j != k ==> ColumnParses(cols[j])
    requires forall j :: 0 <= j < |cols| ==> out[j] == if j != k then NumColumn(cols[j]) else cols[j]
    ensures Coerced(names, cols, k) == Ok(out)
  {
    var none := FirstBadColumn(cols, k, 0);
    assert none.None?;
    var v := seq(|cols|, j requires 0 <= j < |cols| => if j == k then cols[j] else NumColumn(cols[j]));
    assert v == out by {
      forall j | 0 <= j < |cols| ensures v[j] == out[j] {
      }
    }
  }

  /** Lines 65-66: `Exi_raw` becomes a copy of `Exi` (overwriting an existing
      `Exi_raw` column, else appended), then `Exi` is clipped at 0. A frame
      without `Exi` fails here with the missing-column error. */
  function WithRawStock(names: seq<string>, cols: seq<seq<Cell>>, k: nat): (r: Result<(seq<string>, seq<seq<Cell>>)>)
    requires |names| == |cols| && k < |cols| && HasSucPrefix(names[k]) && NumericExcept(cols, k)
    ensures r.Err? <==> "Exi" !in names
    ensures r.Err? ==> r.error == MissingColumn("Exi")
    ensures r.Ok? ==> |r.value.1| == |r.value.0| >= |names|
    ensures r.Ok? ==> r.value.0[k] == names[k] && r.value.1[k] == cols[k]
    ensures r.Ok? ==> NumericExcept(r.value.1, k) && "Exi_raw" in r.value.0
  {
    match IndexOf(names, "Exi")
    case None => Err(MissingColumn("Exi"))
    case Some(e) =>
      var raw := cols[e];
      match IndexOf(names, "Exi_raw")
      case Some(w) => Ok((names, cols[w := raw][e := ClipColumn(raw)]))
      case None => Ok((names + ["Exi_raw"], (cols + [raw])[e := ClipColumn(raw)]))
  }

  lemma IndexOfAppend(ns: seq<string>, m: string)
    requires m !in ns
    ensures forall n :: n in ns ==> IndexOf(ns + [m], n) == IndexOf(ns, n)
    ensures IndexOf(ns + [m], m) == Some(|ns|)
  {
    forall n | n in ns ensures IndexOf(ns + [m], n) == IndexOf(ns, n) {
      var j := IndexOf(ns, n).value;
      assert (ns + [m])[j] == n;
    }
    assert (ns + [m])[|ns|] == m;
  }

  /** The columns every run needs, in the order line 69 checks them. */
  const Required: seq<string> := ["V30D", "V60D", "Exi", "VF", "1T", "2T", "3T", "4T"]

  /** Lines 69-72: the position, from `from` on, of the first name of `req`
      missing from `names`. */
  function FirstMissing(names: seq<string>, req: seq<string>, from: nat): (r: Option<nat>)
    requires from <= |req|
    ensures r.None? <==> forall p :: from <= p < |req| ==> req[p] in names
    ensures r.Some? ==> from <= r.value < |req| && req[r.value] !in names
    ensures r.Some? ==> forall p :: from <= p < r.value ==> req[p] in names
    decreases |req| - from
  {
    if from == |req| then None
    else if req[from] !in names then Some(from)
    else FirstMissing(names, req, from + 1)
  }

  // ---------------------------------------------------------------------
  // Branch records

  /** One row of the normalised frame, with the columns the order rule reads. */
  datatype BranchRecord = BranchRecord(
    id: string,
    v30d: int, v60d: int,
    exi: int,      // stock clipped at 0
    exiRaw: int,   // stock as reported
    vf: int,
    t1: int, t2: int, t3: int, t4: int)

  /** Every name of `Required` is a column name. */
  predicate HasRequired(names: seq<string>) {
    && "V30D" in names && "V60D" in names && "Exi" in names && "VF" in names
    && "1T" in names && "2T" in names && "3T" in names && "4T" in names
  }

  lemma FirstMissingNone(names: seq<string>)
    ensures FirstMissing(names, Required, 0).None? <==> HasRequired(names)
  {
    if FirstMissing(names, Required, 0).None? {
      assert Required[0] in names && Required[1] in names && Required[2] in names && Required[3] in names;
      assert Required[4] in names && Required[5] in names && Required[6] in names && Required[7] in names;
    }
  }

  /** A frame at line 73: shaped, branch column `k`, every other column
      numeric, all required columns and `Exi_raw` present. */
  predicate Normalized(names: seq<string>, cols: seq<seq<Cell>>, k: nat, h: nat) {
    Shaped(names, cols, h) && k < |cols| && HasSucPrefix(names[k]) && NumericExcept(cols, k)
    && HasRequired(names) && "Exi_raw" in names
  }

  /** The integer in column `n`, row `i`. */
  function Field(names: seq<string>, cols: seq<seq<Cell>>, k: nat, h: nat, n: string, i: nat): int
    requires Normalized(names, cols, k, h) && n in names && !HasSucPrefix(n) && i < h
  {
    cols[IndexOf(names, n).value][i].n
  }

  function Records(names: seq<string>, cols: seq<seq<Cell>>, k: nat, h: nat): (rs: seq<BranchRecord>)
    requires Normalized(names, cols, k, h)
    ensures |rs| == h
  {
    seq(h, i requires 0 <= i < h =>
      BranchRecord(AsStr(cols[k][i]),
        Field(names, cols, k, h, "V30D", i), Field(names, cols, k, h, "V60D", i),
        Field(names, cols, k, h, "Exi", i), Field(names, cols, k, h, "Exi_raw", i),
        Field(names, cols, k, h, "VF", i),
        Field(names, cols, k, h, "1T", i), Field(names, cols, k, h, "2T", i),
        Field(names, cols, k, h, "3T", i), Field(names, cols, k, h, "4T", i)))
  }

  lemma RawStockShaped(names0: seq<string>, cols0: seq<seq<Cell>>, k: nat, h: nat)
    requires Shaped(names0, cols0, h) && k < |cols0| && HasSucPrefix(names0[k]) && NumericExcept(cols0, k)
    requires WithRawStock(names0, cols0, k).Ok?
    ensures Shaped(WithRawStock(names0, cols0, k).value.0, WithRawStock(names0, cols0, k).value.1, h)
  {
    var e := IndexOf(names0, "Exi").value;
    var cols := WithRawStock(names0, cols0, k).value.1;
    assert |cols0[e]| == h;
    forall j | 0 <= j < |cols| ensures |cols[j]| == h {
      if j < |cols0| && j != e {
        assert cols[j] == cols0[j] || cols[j] == cols0[e];
      }
    }
  }

  /** The columns after padding the branch column `k` (lines 45 and 53). */
  function PaddedColumns(t: RawTable, k: nat): (r: seq<seq<Cell>>)
    requires WellFormed(t) && k < |t.header|
    ensures Shaped(t.header, r, |t.rows|)
  {
    var c0 := ColumnsOf(t);
    c0[k := PadColumn(c0[k])]
  }

  /** Line 69-72 and the records of the finished frame. */
  function CheckRequired(names: seq<string>, cols: seq<seq<Cell>>, k: nat, h: nat): (r: Result<seq<BranchRecord>>)
    requires Shaped(names, cols, h) && k < |cols| && HasSucPrefix(names[k]) && NumericExcept(cols, k)
    requires "Exi_raw" in names
    ensures r.Ok? ==> |r.value| == h
    ensures r.Err? ==> r.error.MissingColumn? && r.error.name != "suc*"
  {
    match FirstMissing(names, Required, 0)
    case Some(p) => Err(MissingColumn(Required[p]))
    case None =>
      FirstMissingNone(names);
      Ok(Records(names, cols, k, h))
  }

  /** Lines 65-72 on the coerced frame. */
  function AfterCoercion(names: seq<string>, cols: seq<seq<Cell>>, k: nat, h: nat): (r: Result<seq<BranchRecord>>)
    requires Shaped(names, cols, h) && k < |cols| && HasSucPrefix(names[k]) && NumericExcept(cols, k)
    ensures r.Ok? ==> |r.value| == h
    ensures r.Err? ==> r.error.MissingColumn? && r.error.name != "suc*"
  {
    match WithRawStock(names, cols, k)
    case Err(e) => Err(e)
    case Ok(st) =>
      RawStockShaped(names, cols, k, h);
      CheckRequired(st.0, st.1, k, h)
  }

  /** Lines 54-72 on the padded frame. */
  function AfterPadding(names: seq<string>, cols: seq<seq<Cell>>, k: nat, h: nat): (r: Result<seq<BranchRecord>>)
    requires Shaped(names, cols, h) && k < |cols| && HasSucPrefix(names[k])
    ensures r.Ok? ==> |r.value| == h
    ensures r.Err? ==> r.error.InvalidNumericCell? || (r.error.MissingColumn? && r.error.name != "suc*")
  {
    match Coerced(names, cols, k)
    case Err(e) => Err(e)
    case Ok(c) => AfterCoercion(names, c, k, h)
  }

  /** Lines 49-72 as one function of the parsed table. */
  function Normalize(t: RawTable): (r: Result<seq<BranchRecord>>)
    requires WellFormed(t)
    ensures r.Ok? ==> |r.value| == |t.rows|
    ensures r == Err(MissingColumn("suc*")) <==> BranchColumn(CleanNames(t.header)).None?
    ensures r.Err? ==> r.error.MissingColumn? || r.error.InvalidNumericCell?
  {
    var names := CleanNames(t.header);
    match BranchColumn(names)
    case None => Err(MissingColumn("suc*"))
    case Some(k) =>
      AfterPadding(names, PaddedColumns(t, k), k, |t.rows|)
  }

  // ---------------------------------------------------------------------
  // What normalisation means row by row

  /** The integer a raw row holds under column name `n`, if any. */
  function ReadField(names: seq<string>, row: seq<string>, n: string): Option<int>
    requires |row| == |names|
  {
    match IndexOf(names, n)
    case None => None
    case Some(j) => ParseCell(row[j])
  }

  /** The record a single raw row stands for, read directly from the row:
      the padded branch id, each required column cleaned and parsed, the
      signed stock as `exiRaw` and the stock clipped at 0 as `exi`. */
  function ReadRow(names: seq<string>, k: nat, row: seq<string>): Option<BranchRecord>
    requires |row| == |names| && k < |row|
  {
    var v30d, v60d, exi, vf := ReadField(names, row, "V30D"), ReadField(names, row, "V60D"),
                              ReadField(names, row, "Exi"), ReadField(names, row, "VF");
    var t1, t2, t3, t4 := ReadField(names, row, "1T"), ReadField(names, row, "2T"),
                          ReadField(names, row, "3T"), ReadField(names, row, "4T");
    if v30d.Some? && v60d.Some? && exi.Some? && vf.Some? && t1.Some? && t2.Some? && t3.Some? && t4.Some? then
      Some(BranchRecord(ZFill4(row[k]), v30d.value, v60d.value,
                        if exi.value < 0 then 0 else exi.value, exi.value, vf.value,
                        t1.value, t2.value, t3.value, t4.value))
    else None
  }

  lemma BranchStep(t: RawTable)
    requires WellFormed(t) && Normalize(t).Ok?
    ensures BranchColumn(CleanNames(t.header)).Some?
    ensures var k := BranchColumn(CleanNames(t.header)).value;
            Normalize(t) == AfterPadding(CleanNames(t.header), PaddedColumns(t, k), k, |t.rows|)
  {
  }

  lemma PaddingStep(names: seq<string>, cols: seq<seq<Cell>>, k: nat, h: nat)
    requires Shaped(names, cols, h) && k < |cols| && HasSucPrefix(names[k])
    requires AfterPadding(names, cols, k, h).Ok?
    ensures Coerced(names, cols, k).Ok?
    ensures AfterPadding(names, cols, k, h) == AfterCoercion(names, Coerced(names, cols, k).value, k, h)
  {
  }

  lemma CoercionStep(names: seq<string>, cols: seq<seq<Cell>>, k: nat, h: nat)
    requires Shaped(names, cols, h) && k < |cols| && HasSucPrefix(names[k]) && NumericExcept(cols, k)
    requires AfterCoercion(names, cols, k, h).Ok?
    ensures WithRawStock(names, cols, k).Ok?
    ensures Shaped(WithRawStock(names, cols, k).value.0, WithRawStock(names, cols, k).value.1, h)
    ensures var st := WithRawStock(names, cols, k).value;
            AfterCoercion(names, cols, k, h) == CheckRequired(st.0, st.1, k, h)
  {
    RawStockShaped(names, cols, k, h);
  }

  lemma CheckStep(names: seq<string>, cols: seq<seq<Cell>>, k: nat, h: nat)
    requires Shaped(names, cols, h) && k < |cols| && HasSucPrefix(names[k]) && NumericExcept(cols, k)
    requires "Exi_raw" in names
    requires CheckRequired(names, cols, k, h).Ok?
    ensures FirstMissing(names, Required, 0).None?
    ensures Normalized(names, cols, k, h)
    ensures CheckRequired(names, cols, k, h) == Ok(Records(names, cols, k, h))
  {
    FirstMissingNone(names);
  }

  /** The steps of a successful normalisation, one by one. */
  lemma NormalizeSteps(t: RawTable)
    requires WellFormed(t) && Normalize(t).Ok?
    ensures BranchColumn(CleanNames(t.header)).Some?
    ensures var names, k := CleanNames(t.header), BranchColumn(CleanNames(t.header)).value;
            && Coerced(names, PaddedColumns(t, k), k).Ok?
            && WithRawStock(names, Coerced(names, PaddedColumns(t, k), k).value, k).Ok?
            && var st := WithRawStock(names, Coerced(names, PaddedColumns(t, k), k).value, k).value;
               && Normalized(st.0, st.1, k, |t.rows|)
               && Normalize(t).value == Records(st.0, st.1, k, |t.rows|)
  {
    BranchStep(t);
    var names := CleanNames(t.header);
    var k := BranchColumn(names).value;
    var h := |t.rows|;
    var c1 := PaddedColumns(t, k);
    PaddingStep(names, c1, k, h);
    var c2 := Coerced(names, c1, k).value;
    CoercionStep(names, c2, k, h);
    var st := WithRawStock(names, c2, k).value;
    CheckStep(st.0, st.1, k, h);
  }

  /** After coercion, a numeric column holds the parsed raw cells. */
  lemma CoercedCell(t: RawTable, names: seq<string>, k: nat, j: nat, i: nat)
    requires WellFormed(t) && names == CleanNames(t.header) && k < |t.header| && j < |t.header| && j != k
    requires i < |t.rows|
    requires Coerced(names, PaddedColumns(t, k), k).Ok?
    ensures ParseCell(t.rows[i][j]).Some?
    ensures Coerced(names, PaddedColumns(t, k), k).value[j][i] == Num(ParseCell(t.rows[i][j]).value)
  {
    var c0 := ColumnsOf(t);
    var c1 := PaddedColumns(t, k);
    assert c1[j] == c0[j];
    assert FirstBadColumn(c1, k, 0).None?;
    assert ColumnParses(c1[j]);
    assert c1[j][i] == Text(t.rows[i][j]);
    assert CellValue(c1[j][i]).Some?;
  }

  /** The columns after the stock split, in terms of the columns before it. */
  lemma RawStockColumns(names: seq<string>, cols: seq<seq<Cell>>, k: nat, n: string)
    requires |names| == |cols| && k < |cols| && HasSucPrefix(names[k]) && NumericExcept(cols, k)
    requires WithRawStock(names, cols, k).Ok?
    requires n in names
    ensures var st := WithRawStock(names, cols, k).value;
            var e := IndexOf(names, "Exi").value;
            var j := IndexOf(names, n).value;
            && IndexOf(st.0, "Exi_raw").Some?
            && IndexOf(st.0, "Exi_raw").value < |st.1|
            && st.1[IndexOf(st.0, "Exi_raw").value] == cols[e]
            && st.1[e] == ClipColumn(cols[e])
            && IndexOf(st.0, n) == IndexOf(names, n)
            && (n != "Exi" && n != "Exi_raw" ==> st.1[j] == cols[j])
  {
    var e := IndexOf(names, "Exi").value;
    if IndexOf(names, "Exi_raw").None? {
      IndexOfAppend(names, "Exi_raw");
    }
  }

  /** The intermediate frames of a successful normalisation of `t`: the
      cleaned names, the branch column `k`, the coerced columns `c2` and the
      frame `st` after the stock split. */
  predicate Staged(t: RawTable, names: seq<string>, k: nat, c2: seq<seq<Cell>>,
                   st: (seq<string>, seq<seq<Cell>>))
  {
    && WellFormed(t) && names == CleanNames(t.header) && k < |t.header| && HasSucPrefix(names[k])
    && Coerced(names, PaddedColumns(t, k), k) == Ok(c2)
    && WithRawStock(names, c2, k) == Ok(st)
    && Normalized(st.0, st.1, k, |t.rows|) && HasRequired(names)
  }

  /** A successful normalisation went through its stages. */
  lemma NormalizeStages(t: RawTable) returns (names: seq<string>, k: nat, c2: seq<seq<Cell>>,
                                              st: (seq<string>, seq<seq<Cell>>))
    requires WellFormed(t) && Normalize(t).Ok?
    ensures Staged(t, names, k, c2, st)
    ensures BranchColumn(CleanNames(t.header)) == Some(k)
    ensures Normalize(t) == Ok(Records(st.0, st.1, k, |t.rows|))
  {
    NormalizeSteps(t);
    names := CleanNames(t.header);
    k := BranchColumn(names).value;
    c2 := Coerced(names, PaddedColumns(t, k), k).value;
    st := WithRawStock(names, c2, k).value;
    RawStockNames(names, c2, k);
  }

  /** The stock split only adds `Exi_raw`, if anything. */
  lemma RawStockNames(names: seq<string>, cols: seq<seq<Cell>>, k: nat)
    requires |names| == |cols| && k < |cols| && HasSucPrefix(names[k]) && NumericExcept(cols, k)
    requires WithRawStock(names, cols, k).Ok?
    ensures forall n :: n in WithRawStock(names, cols, k).value.0 && n != "Exi_raw" ==> n in names
  {
  }

  /** One numeric field of a normalised record is the parsed raw cell. */
  lemma FieldReadsRow(t: RawTable, i: nat, names: seq<string>, k: nat, c2: seq<seq<Cell>>,
                      st: (seq<string>, seq<seq<Cell>>), n: string)
    requires Staged(t, names, k, c2, st)
    requires n in names && n != "Exi" && n != "Exi_raw" && !HasSucPrefix(n) && i < |t.rows|
    ensures n in st.0
    ensures ReadField(names, t.rows[i], n) == Some(Field(st.0, st.1, k, |t.rows|, n, i))
  {
    var j := IndexOf(names, n).value;
    CoercedCell(t, names, k, j, i);
    RawStockColumns(names, c2, k, n);
  }

  /** The stock fields of a normalised record: the signed parsed cell and
      its clipped value. */
  lemma StockReadsRow(t: RawTable, i: nat, names: seq<string>, k: nat, c2: seq<seq<Cell>>,
                      st: (seq<string>, seq<seq<Cell>>))
    requires Staged(t, names, k, c2, st)
    requires i < |t.rows|
    ensures "Exi" in st.0 && "Exi" in names
    ensures ReadField(names, t.rows[i], "Exi") == Some(Field(st.0, st.1, k, |t.rows|, "Exi_raw", i))
    ensures Field(st.0, st.1, k, |t.rows|, "Exi", i) ==
              var raw := Field(st.0, st.1, k, |t.rows|, "Exi_raw", i); if raw < 0 then 0 else raw
  {
    var e := IndexOf(names, "Exi").value;
    CoercedCell(t, names, k, e, i);
    RawStockColumns(names, c2, k, "Exi");
  }

  /** A run that gets past normalisation had a branch column and every
      required column. */
  lemma NormalizeNeedsColumns(t: RawTable)
    requires WellFormed(t) && Normalize(t).Ok?
    ensures BranchColumn(CleanNames(t.header)).Some?
    ensures HasRequired(CleanNames(t.header))
  {
    var names, k, c2, st := NormalizeStages(t);
  }

  /** The branch id of a normalised record is the padded raw cell. */
  lemma IdReadsRow(t: RawTable, i: nat, names: seq<string>, k: nat, c2: seq<seq<Cell>>,
                   st: (seq<string>, seq<seq<Cell>>))
    requires Staged(t, names, k, c2, st) && i < |t.rows|
    ensures Records(st.0, st.1, k, |t.rows|)[i].id == ZFill4(t.rows[i][k])
  {
    assert st.1[k] == c2[k] == PaddedColumns(t, k)[k];
  }

  /** The sales and forecast fields of a normalised record are the parsed raw cells. */
  lemma DemandReadsRow(t: RawTable, i: nat, names: seq<string>, k: nat, c2: seq<seq<Cell>>,
                       st: (seq<string>, seq<seq<Cell>>))
    requires Staged(t, names, k, c2, st) && i < |t.rows|
    ensures "V30D" in st.0 && "V60D" in st.0 && "VF" in st.0
    ensures ReadField(names, t.rows[i], "V30D") == Some(Field(st.0, st.1, k, |t.rows|, "V30D", i))
    ensures ReadField(names, t.rows[i], "V60D") == Some(Field(st.0, st.1, k, |t.rows|, "V60D", i))
    ensures ReadField(names, t.rows[i], "VF") == Some(Field(st.0, st.1, k, |t.rows|, "VF", i))
  {
    FieldReadsRow(t, i, names, k, c2, st, "V30D");
    FieldReadsRow(t, i, names, k, c2, st, "V60D");
    FieldReadsRow(t, i, names, k, c2, st, "VF");
  }

  /** The four period fields of a normalised record are the parsed raw cells. */
  lemma PeriodsReadRow(t: RawTable, i: nat, names: seq<string>, k: nat, c2: seq<seq<Cell>>,
                       st: (seq<string>, seq<seq<Cell>>))
    requires Staged(t, names, k, c2, st) && i < |t.rows|
    ensures "1T" in st.0 && "2T" in st.0 && "3T" in st.0 && "4T" in st.0
    ensures ReadField(names, t.rows[i], "1T") == Some(Field(st.0, st.1, k, |t.rows|, "1T", i))
    ensures ReadField(names, t.rows[i], "2T") == Some(Field(st.0, st.1, k, |t.rows|, "2T", i))
    ensures ReadField(names, t.rows[i], "3T") == Some(Field(st.0, st.1, k, |t.rows|, "3T", i))
    ensures ReadField(names, t.rows[i], "4T") == Some(Field(st.0, st.1, k, |t.rows|, "4T", i))
  {
    FieldReadsRow(t, i, names, k, c2, st, "1T");
    FieldReadsRow(t, i, names, k, c2, st, "2T");
    FieldReadsRow(t, i, names, k, c2, st, "3T");
    FieldReadsRow(t, i, names, k, c2, st, "4T");
  }

  /** Normalisation reads every row as `ReadRow` does: the frame-at-a-time
      rewriting of lines 49-66 agrees with a direct reading of each row. */
  lemma NormalizeReadsRows(t: RawTable, i: nat)
    requires WellFormed(t) && Normalize(t).Ok? && i < |t.rows|
    ensures BranchColumn(CleanNames(t.header)).Some?
    ensures ReadRow(CleanNames(t.header), BranchColumn(CleanNames(t.header)).value, t.rows[i])
            == Some(Normalize(t).value[i])
  {
    var names, k, c2, st := NormalizeStages(t);
    IdReadsRow(t, i, names, k, c2, st);
    StockReadsRow(t, i, names, k, c2, st);
    DemandReadsRow(t, i, names, k, c2, st);
    PeriodsReadRow(t, i, names, k, c2, st);
  }

  /** Every normalised record holds the stock clipped at 0 beside the
      signed stock. */
  lemma NormalizeClipsStock(t: RawTable)
    requires WellFormed(t) && Normalize(t).Ok?
    ensures forall i :: 0 <= i < |Normalize(t).value| ==>
              Normalize(t).value[i].exi == if Normalize(t).value[i].exiRaw < 0 then 0 else Normalize(t).value[i].exiRaw
  {
    var names, k, c2, st := NormalizeStages(t);
    forall i | 0 <= i < |t.rows|
      ensures Normalize(t).value[i].exi == if Normalize(t).value[i].exiRaw < 0 then 0 else Normalize(t).value[i].exiRaw
    {
      StockReadsRow(t, i, names, k, c2, st);
    }
  }

  /** Adding `Exi_raw` neither adds nor removes a required column. */
  lemma RawStockKeepsRequired(names: seq<string>, cols: seq<seq<Cell>>, k: nat)
    requires |names| == |cols| && k < |cols| && HasSucPrefix(names[k]) && NumericExcept(cols, k)
    requires WithRawStock(names, cols, k).Ok?
    ensures HasRequired(WithRawStock(names, cols, k).value.0) <==> HasRequired(names)
  {
    var ns := WithRawStock(names, cols, k).value.0;
    if IndexOf(names, "Exi_raw").None? {
      assert ns == names + ["Exi_raw"];
      assert forall n :: n in names ==> n in ns;
      RawStockNames(names, cols, k);
    }
  }

  /** When a run on a well-formed table succeeds, and how each other run
      fails: an unparseable cell in a non-branch column gives an
      invalid-cell error, and a required column missing from the cleaned
      names gives a missing-column error naming a column that is absent. */
  lemma NormalizeOkExactly(t: RawTable)
    requires WellFormed(t)
    ensures var names := CleanNames(t.header);
            var b := BranchColumn(names);
            && (Normalize(t).Ok? <==>
                  b.Some? && FirstBadColumn(PaddedColumns(t, b.value), b.value, 0).None? && HasRequired(names))
            && (b.Some? && FirstBadColumn(PaddedColumns(t, b.value), b.value, 0).Some? ==>
                  Normalize(t).Err? && Normalize(t).error.InvalidNumericCell?)
            && (b.Some? && FirstBadColumn(PaddedColumns(t, b.value), b.value, 0).None? && !HasRequired(names) ==>
                  Normalize(t).Err? && Normalize(t).error.MissingColumn? && Normalize(t).error.name !in names)
  {
    var names := CleanNames(t.header);
    var b := BranchColumn(names);
    if b.Some? {
      var k := b.value;
      var c1 := PaddedColumns(t, k);
      var h := |t.rows|;
      assert Normalize(t) == AfterPadding(names, c1, k, h);
      if FirstBadColumn(c1, k, 0).None? {
        var c2 := Coerced(names, c1, k).value;
        CoercedShaped(names, c1, k, h);
        assert Normalize(t) == AfterCoercion(names, c2, k, h);
        match WithRawStock(names, c2, k)
        case Err(e) =>
          assert "Exi" !in names;
        case Ok(st) =>
          RawStockShaped(names, c2, k, h);
          RawStockKeepsRequired(names, c2, k);
          RawStockNames(names, c2, k);
          FirstMissingNone(st.0);
          assert Normalize(t) == CheckRequired(st.0, st.1, k, h);
          if !HasRequired(names) {
            var q := FirstMissing(st.0, Required, 0).value;
            assert Required[q] !in st.0;
            assert Required[q] != "Exi_raw";
            assert forall n :: n in names ==> n in st.0 by {
              if IndexOf(names, "Exi_raw").None? {
                assert st.0 == names + ["Exi_raw"];
              }
            }
          }
      }
    }
  }

  lemma CoercedShaped(names: seq<string>, cols: seq<seq<Cell>>, k: nat, h: nat)
    requires Shaped(names, cols, h) && k < |cols| && Coerced(names, cols, k).Ok?
    ensures Shaped(names, Coerced(names, cols, k).value, h)
  {
  }

  /** The columns after the coercion loop has passed the first `j` columns. */
  function PartlyCoerced(cols: seq<seq<Cell>>, k: nat, j: nat): (r: seq<seq<Cell>>)
    ensures |r| == |cols|
    ensures forall j' :: 0 <= j' < |cols| ==>
              r[j'] == if j' < j && j' != k then NumColumn(cols[j']) else cols[j']
  {
    seq(|cols|, j' requires 0 <= j' < |cols| => if j' < j && j' != k then NumColumn(cols[j']) else cols[j'])
  }

  lemma PartlyCoercedStep(cols: seq<seq<Cell>>, k: nat, j: nat)
    requires j < |cols|
    ensures PartlyCoerced(cols, k, j + 1) ==
              if j == k then PartlyCoerced(cols, k, j) else PartlyCoerced(cols, k, j)[j := NumColumn(cols[j])]
  {
    var a, b := PartlyCoerced(cols, k, j + 1), PartlyCoerced(cols, k, j);
    if j == k {
      assert a == b;
    } else {
      assert a == b[j := NumColumn(cols[j])];
    }
  }

  // ---------------------------------------------------------------------
  // The data frame as an object, rewritten in place

  class Frame {
    var names: seq<string>
    var cols: seq<seq<Cell>>
    const height: nat

    ghost predicate Valid()
      reads this
    {
      Shaped(names, cols, height)
    }

    /** Line 45: the frame `read_csv` returns. */
    constructor (t: RawTable)
      requires WellFormed(t)
      ensures Valid() && names == t.header && cols == ColumnsOf(t) && height == |t.rows|
    {
      names := t.header;
      cols := ColumnsOf(t);
      height := |t.rows|;
    }

    /** Line 49. */
    method CleanHeader()
      requires Valid()
      modifies this
      ensures Valid() && names == CleanNames(old(names)) && cols == old(cols)
    {
      names := CleanNames(names);
    }

    /** Line 53. */
    method PadBranch(k: nat)
      requires Valid() && k < |cols|
      modifies this
      ensures Valid() && names == old(names) && cols == old(cols)[k := PadColumn(old(cols)[k])]
    {
      cols := cols[k := PadColumn(cols[k])];
    }

    /** Lines 54-62: the loop over the columns. On failure the columns
        before the first bad one stay converted; the run stops anyway. */
    method CoerceNumeric(k: nat) returns (err: Option<Error>)
      requires Valid() && k < |cols|
      modifies this
      ensures names == old(names)
      ensures Coerced(old(names), old(cols), k).Ok? ==>
                err.None? && cols == Coerced(old(names), old(cols), k).value && Valid()
      ensures Coerced(old(names), old(cols), k).Err? ==>
                err == Some(Coerced(old(names), old(cols), k).error) &&
                cols == PartlyCoerced(old(cols), k, FirstBadColumn(old(cols), k, 0).value)
    {
      var c0, cs := cols, cols;
      var j := 0;
      while j < |cs|
        invariant 0 <= j <= |c0| == |cs| && |names| == |c0| && names == old(names) && c0 == old(cols)
        invariant forall j' :: 0 <= j' < j && j' != k ==> ColumnParses(c0[j'])
        invariant cs == PartlyCoerced(c0, k, j)
      {
        if j != k {
          if !ColumnParses(cs[j]) {
            CoercedFailsAt(names, c0, k, j);
            cols := cs;
            return Some(BadCell(names, c0, j));
          }
          PartlyCoercedStep(c0, k, j);
          cs := cs[j := NumColumn(cs[j])];
        } else {
          PartlyCoercedStep(c0, k, j);
        }
        j := j + 1;
      }
      CoercedWhenAllParse(names, c0, k, cs);
      CoercedShaped(names, c0, k, height);
      cols := cs;
      return None;
    }

    /** Lines 69-72: the first required column, in the order of line 69,
        that the frame lacks. */
    method CheckColumns() returns (err: Option<Error>)
      ensures err.None? <==> HasRequired(names)
      ensures err.None? <==> FirstMissing(names, Required, 0).None?
      ensures err.Some? ==> err.value == MissingColumn(Required[FirstMissing(names, Required, 0).value])
    {
      FirstMissingNone(names);
      var p := 0;
      while p < |Required|
        invariant 0 <= p <= |Required|
        invariant FirstMissing(names, Required, 0) == FirstMissing(names, Required, p)
      {
        if Required[p] !in names {
          return Some(MissingColumn(Required[p]));
        }
        p := p + 1;
      }
      return None;
    }

    /** Lines 65-66. */
    method KeepRawStock(k: nat) returns (err: Option<Error>)
      requires Valid() && k < |cols| && HasSucPrefix(names[k]) && NumericExcept(cols, k)
      modifies this
      ensures WithRawStock(old(names), old(cols), k).Ok? ==>
                err.None? && (names, cols) == WithRawStock(old(names), old(cols), k).value
      ensures WithRawStock(old(names), old(cols), k).Err? ==>
                err == Some(WithRawStock(old(names), old(cols), k).error)
      ensures err.Some? ==> names == old(names) && cols == old(cols)
      ensures err.None? ==> Valid()
    {
      var e := IndexOf(names, "Exi");
      if e.None? {
        return Some(MissingColumn("Exi"));
      }
      var raw := cols[e.value];
      var w := IndexOf(names, "Exi_raw");
      if w.Some? {
        cols := cols[w.value := raw];
      } else {
        names := names + ["Exi_raw"];
        cols := cols + [raw];
      }
      cols := cols[e.value := ClipColumn(raw)];
      return None;
    }
  }

  /** Lines 45-72 as the script runs them: the frame is built, then
      rewritten statement by statement; the first failure stops the run. */
  method NormalizeTable(t: RawTable) returns (r: Result<seq<BranchRecord>>)
    requires WellFormed(t)
    ensures r == Normalize(t)
  {
    var frame := new Frame(t);
    frame.CleanHeader();
    var branch := BranchColumn(frame.names);
    if branch.None? {
      return Err(MissingColumn("suc*"));
    }
    var k := branch.value;
    frame.PadBranch(k);
    ghost var names, c1 := frame.names, frame.cols;
    assert c1 == PaddedColumns(t, k);
    var err := frame.CoerceNumeric(k);
    if err.Some? {
      return Err(err.value);
    }
    ghost var c2 := frame.cols;
    err := frame.KeepRawStock(k);
    if err.Some? {
      return Err(err.value);
    }
    RawStockShaped(names, c2, k, |t.rows|);
    err := frame.CheckColumns();
    if err.Some? {
      return Err(err.value);
    }
    CheckStep(frame.names, frame.cols, k, |t.rows|);
    return Ok(Records(frame.names, frame.cols, k, frame.height));
  }
}
