/**
 * The opponent catalog: the records load_objects returns and the
 * line-by-line parse of its comma-separated branch.
 */
module Catalog {
  import opened Wrappers

  /** One opponent record, `{"name": ..., "type": ...}` in the source. */
  datatype Opponent = Opponent(name: string, kind: string)

  /** The only way the line loop can fail: a data line without a comma cannot be split in two. */
  datatype LoadError = MissingComma

  /** The characters Python's `str.isspace` accepts, which `str.strip()` removes. */
  predicate IsSpace(c: char) {
    var n := c as int;
    || n == 0x20 || 0x09 <= n <= 0x0D || 0x1C <= n <= 0x1F
    || n == 0x85 || n == 0xA0 || n == 0x1680 || 0x2000 <= n <= 0x200A
    || n == 0x2028 || n == 0x2029 || n == 0x202F || n == 0x205F || n == 0x3000
  }

  predicate IsUpper(c: char) {
    'A' <= c <= 'Z'
  }

  /** Neither end of `t` is whitespace. */
  predicate IsStripped(t: string) {
    t == [] || (!IsSpace(t[0]) && !IsSpace(t[|t| - 1]))
  }

  /** The leading-whitespace half of `str.strip()`: only whitespace goes, and what is left does not start with it. */
  function StripLeft(s: string): (r: string)
    ensures |r| <= |s|
    ensures forall k :: 0 <= k < |s| - |r| ==> IsSpace(s[k])
    ensures r != [] ==> !IsSpace(r[0])
    decreases |s|
  {
    if s != [] && IsSpace(s[0]) then StripLeft(s[1..]) else s
  }

  /** The trailing-whitespace half of `str.strip()`: only whitespace goes, and what is left does not end with it. */
  function StripRight(s: string): (r: string)
    ensures |r| <= |s|
    ensures forall k :: |r| <= k < |s| ==> IsSpace(s[k])
    ensures r != [] ==> !IsSpace(r[|r| - 1])
    decreases |s|
  {
    if s != [] && IsSpace(s[|s| - 1]) then StripRight(s[..|s| - 1]) else s
  }

  /** What StripLeft keeps is a suffix of its argument. */
  lemma {:induction false} StripLeftIsSuffix(s: string)
    ensures StripLeft(s) == s[|s| - |StripLeft(s)|..]
    decreases |s|
  {
    if s != [] && IsSpace(s[0]) {
      StripLeftIsSuffix(s[1..]);
      assert s[1..][|s| - 1 - |StripLeft(s)|..] == s[|s| - |StripLeft(s)|..];
    }
  }

  /** What StripRight keeps is a prefix of its argument. */
  lemma {:induction false} StripRightIsPrefix(s: string)
    ensures StripRight(s) == s[..|StripRight(s)|]
    decreases |s|
  {
    if s != [] && IsSpace(s[|s| - 1]) {
      StripRightIsPrefix(s[..|s| - 1]);
      assert s[..|s| - 1][..|StripRight(s)|] == s[..|StripRight(s)|];
    }
  }

  /**
   * `str.strip()`: neither end of the result is whitespace, and the result is
   * empty exactly when `s` is nothing but whitespace.
   */
  function Strip(s: string): (r: string)
    ensures IsStripped(r) && |r| <= |s|
    ensures r == [] <==> forall k :: 0 <= k < |s| ==> IsSpace(s[k])
  {
    var left := StripLeft(s);
    StripLeftIsSuffix(s);
    StripRightIsPrefix(left);
    assert forall k :: |s| - |left| <= k < |s| ==> s[k] == left[k - (|s| - |left|)];
    StripRight(left)
  }

  /** What `str.strip()` cuts off is whitespace at the two ends, and what it keeps is the text between. */
  lemma StripKeepsMiddle(s: string)
    ensures var r, i := Strip(s), |s| - |StripLeft(s)|;
      && i + |r| <= |s|
      && s[i..i + |r|] == r
      && (forall k :: 0 <= k < i ==> IsSpace(s[k]))
      && (forall k :: i + |r| <= k < |s| ==> IsSpace(s[k]))
  {
    assert Strip(s) == StripRight(StripLeft(s));
    StripMiddleSlice(s);
    StripTrailingSpace(s);
  }

  /** The two halves of the strip keep a slice of the input. */
  lemma StripMiddleSlice(s: string)
    ensures var left := StripLeft(s); var r, i := StripRight(left), |s| - |left|;
      i + |r| <= |s| && s[i..i + |r|] == r
  {
    var left := StripLeft(s);
    var r := StripRight(left);
    var i := |s| - |left|;
    StripLeftIsSuffix(s);
    StripRightIsPrefix(left);
    assert s[i..i + |r|] == s[i..][..|r|];
  }

  /** What the end strip cuts from the front-stripped text is whitespace of the input. */
  lemma StripTrailingSpace(s: string)
    ensures var left := StripLeft(s); var r, i := StripRight(left), |s| - |left|;
      forall k :: i + |r| <= k < |s| ==> IsSpace(s[k])
  {
    var left := StripLeft(s);
    var r := StripRight(left);
    var i := |s| - |left|;
    StripLeftIsSuffix(s);
    forall k | i + |r| <= k < |s|
      ensures IsSpace(s[k])
    {
      assert s[k] == left[k - i];
    }
  }

  /** The test `not line.strip()` that skips a line. */
  predicate IsBlank(line: string) {
    Strip(line) == []
  }

  /** A line is skipped exactly when it is whitespace only. */
  lemma BlankIsWhitespace(line: string)
    ensures IsBlank(line) <==> forall k :: 0 <= k < |line| ==> IsSpace(line[k])
  {
  }

  /** `str.lower()` on one character, for the ASCII letters. */
  function LowerChar(c: char): char {
    if IsUpper(c) then (c as int + 32) as char else c
  }

  /**
   * `str.lower()`: same length, every upper-case letter replaced by the same
   * letter in lower case, every other character kept.
   */
  function ToLower(s: string): (r: string)
    ensures |r| == |s|
    ensures forall k :: 0 <= k < |r| ==> !IsUpper(r[k])
    ensures forall k :: 0 <= k < |s| && IsUpper(s[k]) ==>
              'a' <= r[k] <= 'z' && r[k] as int - 'a' as int == s[k] as int - 'A' as int
    ensures forall k :: 0 <= k < |s| && !IsUpper(s[k]) ==> r[k] == s[k]
  {
    seq(|s|, k requires 0 <= k < |s| => LowerChar(s[k]))
  }

  /** Lower-casing twice is lower-casing once. */
  lemma ToLowerIdempotent(s: string)
    ensures ToLower(ToLower(s)) == ToLower(s)
  {
  }

  /** Lower-casing never touches whitespace, so a stripped text stays stripped. */
  lemma ToLowerKeepsStripped(t: string)
    requires IsStripped(t)
    ensures IsStripped(ToLower(t))
  {
  }

  /** The position `str.split(",", maxsplit=1)` cuts at: the first comma, if any. */
  function FirstComma(s: string): (r: Option<nat>)
    ensures r.None? <==> ',' !in s
    ensures r.Some? ==> r.value < |s| && s[r.value] == ','
                        && forall k :: 0 <= k < r.value ==> s[k] != ','
    decreases |s|
  {
    if s == [] then None
    else if s[0] == ',' then Some(0)
    else match FirstComma(s[1..])
      case None => None
      case Some(i) => Some(i + 1)
  }

  /**
   * One non-blank data line: split at the first comma, strip both parts and
   * lower-case the type. With no comma the two-name unpacking fails.
   */
  function ParseRow(line: string): (r: Result<Opponent, LoadError>)
    ensures r.Failure? <==> ',' !in line
  {
    match FirstComma(line)
    case None => Failure(MissingComma)
    case Some(i) => Success(Opponent(Strip(line[..i]), ToLower(Strip(line[i + 1..]))))
  }

  /** A comma in front of which there is none: where `split(",", maxsplit=1)` cuts. */
  lemma {:induction false} FirstCommaAfter(n: string, t: string)
    requires ',' !in n
    ensures FirstComma(n + [','] + t) == Some(|n|)
    decreases |n|
  {
    if n != [] {
      assert (n + [','] + t)[1..] == n[1..] + [','] + t;
      FirstCommaAfter(n[1..], t);
    }
  }

  /**
   * A line made of a name without commas, a comma and a type parses to the
   * stripped name and the stripped, lower-cased type.
   */
  lemma ParseRowRoundTrip(n: string, t: string)
    requires ',' !in n
    ensures ParseRow(n + [','] + t) == Success(Opponent(Strip(n), ToLower(Strip(t))))
  {
    var line := n + [','] + t;
    FirstCommaAfter(n, t);
    assert line[..|n|] == n;
    assert line[|n| + 1..] == t;
  }

  /** What every record of a parsed catalog looks like. */
  predicate WellFormedRecord(o: Opponent) {
    IsStripped(o.name) && IsStripped(o.kind) && forall k :: 0 <= k < |o.kind| ==> !IsUpper(o.kind[k])
  }

  lemma ParseRowWellFormed(line: string)
    requires ParseRow(line).Success?
    ensures WellFormedRecord(ParseRow(line).value)
  {
    var i := FirstComma(line).value;
    var name, kind := Strip(line[..i]), Strip(line[i + 1..]);
    assert ParseRow(line) == Success(Opponent(name, ToLower(kind)));
    ToLowerKeepsStripped(kind);
  }

  /** One pass of the line loop: skip a blank line, otherwise append its record or stop with its error. */
  function ParseNext(acc: Result<seq<Opponent>, LoadError>, line: string): (r: Result<seq<Opponent>, LoadError>)
    ensures r.Failure? <==> acc.Failure? || Malformed(line)
  {
    match acc
    case Failure(e) => Failure(e)
    case Success(objects) =>
      if IsBlank(line) then acc
      else match ParseRow(line)
        case Failure(e) => Failure(e)
        case Success(o) => Success(objects + [o])
  }

  /** The records of the data lines `rows`, in order, or the error of the first line that has no comma. */
  function ParseRows(rows: seq<string>): Result<seq<Opponent>, LoadError>
    decreases |rows|
  {
    if rows == [] then Success([]) else ParseNext(ParseRows(rows[..|rows| - 1]), rows[|rows| - 1])
  }

  /** The lines after the header (`lines[1:]`): the file is its header followed by them, and an empty file has none. */
  function DataLines(lines: seq<string>): (r: seq<string>)
    ensures lines == [] ==> r == []
    ensures lines != [] ==> lines == [lines[0]] + r
  {
    if lines == [] then [] else lines[1..]
  }

  /** The comma-separated branch of load_objects, over the lines of the file. */
  function ParseCatalog(lines: seq<string>): Result<seq<Opponent>, LoadError> {
    ParseRows(DataLines(lines))
  }

  /** A data line the parse refuses: not blank and without a comma. */
  predicate Malformed(line: string) {
    !IsBlank(line) && ',' !in line
  }

  /**
   * A successful step keeps a blank line out and appends the record of a
   * non-blank one, which is well-formed.
   */
  lemma ParseNextShape(acc: Result<seq<Opponent>, LoadError>, line: string)
    requires ParseNext(acc, line).Success?
    ensures acc.Success?
    ensures IsBlank(line) ==> ParseNext(acc, line).value == acc.value
    ensures !IsBlank(line) ==> ParseRow(line).Success? && ParseNext(acc, line).value == acc.value + [ParseRow(line).value]
    ensures |ParseNext(acc, line).value| == |acc.value| + (if IsBlank(line) then 0 else 1)
    ensures ParseNext(acc, line).value[..|acc.value|] == acc.value
    ensures forall j :: |acc.value| <= j < |ParseNext(acc, line).value| ==> WellFormedRecord(ParseNext(acc, line).value[j])
  {
    if !IsBlank(line) {
      var o := ParseRow(line).value;
      assert ParseNext(acc, line) == Success(acc.value + [o]);
      ParseRowWellFormed(line);
    } else {
      assert ParseNext(acc, line) == acc;
    }
  }

  /** The non-blank lines among `rows`, in their order. */
  function NonBlank(rows: seq<string>): (r: seq<string>)
    ensures forall j :: 0 <= j < |r| ==> !IsBlank(r[j])
    ensures forall x :: x in r <==> x in rows && !IsBlank(x)
    decreases |rows|
  {
    if rows == [] then []
    else
      var init, last := rows[..|rows| - 1], rows[|rows| - 1];
      assert rows == init + [last];
      NonBlank(init) + (if IsBlank(last) then [] else [last])
  }

  /** One line is kept exactly when it is not blank. */
  lemma NonBlankSingle(x: string)
    ensures NonBlank([x]) == if IsBlank(x) then [] else [x]
  {
    assert [x][..0] == [];
  }

  /** Filtering a concatenation filters each part and keeps them in order. */
  lemma {:induction false} NonBlankAppend(a: seq<string>, b: seq<string>)
    ensures NonBlank(a + b) == NonBlank(a) + NonBlank(b)
    decreases |b|
  {
    if b == [] {
      assert a + b == a;
    } else {
      var init, last := b[..|b| - 1], b[|b| - 1];
      assert (a + b)[..|a + b| - 1] == a + init;
      assert (a + b)[|a + b| - 1] == last;
      NonBlankAppend(a, init);
    }
  }

  /** The parse fails exactly when some data line is malformed. */
  lemma {:induction false} ParseRowsFailsIff(rows: seq<string>)
    ensures ParseRows(rows).Failure? <==> exists k :: 0 <= k < |rows| && Malformed(rows[k])
    decreases |rows|
  {
    if rows != [] {
      var init := rows[..|rows| - 1];
      ParseRowsFailsIff(init);
      assert forall k :: 0 <= k < |init| ==> init[k] == rows[k];
      assert (exists k :: 0 <= k < |rows| && Malformed(rows[k]))
        <==> (exists k :: 0 <= k < |init| && Malformed(init[k])) || Malformed(rows[|rows| - 1]);
    }
  }

  /** A successful parse yields one well-formed record per non-blank data line. */
  lemma {:induction false} ParseRowsShape(rows: seq<string>)
    requires ParseRows(rows).Success?
    ensures |ParseRows(rows).value| == |NonBlank(rows)|
    ensures forall j :: 0 <= j < |ParseRows(rows).value| ==> WellFormedRecord(ParseRows(rows).value[j])
    decreases |rows|
  {
    if rows != [] {
      var init := rows[..|rows| - 1];
      var prev := ParseRows(init);
      ParseNextShape(prev, rows[|rows| - 1]);
      ParseRowsShape(init);
      var objects := ParseRows(rows).value;
      forall j | 0 <= j < |prev.value|
        ensures WellFormedRecord(objects[j])
      {
        assert objects[j] == objects[..|prev.value|][j];
      }
    }
  }

  /** A successful parse holds, in order, the record of each non-blank data line. */
  lemma {:induction false} ParseRowsContent(rows: seq<string>)
    requires ParseRows(rows).Success?
    ensures |ParseRows(rows).value| == |NonBlank(rows)|
    ensures forall j :: 0 <= j < |NonBlank(rows)| ==>
              ParseRow(NonBlank(rows)[j]).Success? && ParseRows(rows).value[j] == ParseRow(NonBlank(rows)[j]).value
    decreases |rows|
  {
    if rows != [] {
      var init, last := rows[..|rows| - 1], rows[|rows| - 1];
      var prev := ParseRows(init);
      ParseNextShape(prev, last);
      ParseRowsContent(init);
      assert NonBlank(rows) == NonBlank(init) + (if IsBlank(last) then [] else [last]);
    }
  }

  /**
   * The catalog: the header line is ignored, and the load fails exactly when
   * some later line is malformed.
   */
  lemma CatalogFailsIff(lines: seq<string>)
    ensures ParseCatalog(lines).Failure? <==> exists k :: 1 <= k < |lines| && Malformed(lines[k])
  {
    var rows := DataLines(lines);
    ParseRowsFailsIff(rows);
    if exists k :: 0 <= k < |rows| && Malformed(rows[k]) {
      var k :| 0 <= k < |rows| && Malformed(rows[k]);
      assert lines[k + 1] == rows[k];
    }
    if exists k :: 1 <= k < |lines| && Malformed(lines[k]) {
      var k :| 1 <= k < |lines| && Malformed(lines[k]);
      assert rows[k - 1] == lines[k];
    }
  }

  /** A loaded catalog holds one stripped, lower-cased record per non-blank line after the header. */
  lemma CatalogShape(lines: seq<string>)
    requires ParseCatalog(lines).Success?
    ensures |ParseCatalog(lines).value| == |NonBlank(DataLines(lines))|
    ensures forall j :: 0 <= j < |ParseCatalog(lines).value| ==> WellFormedRecord(ParseCatalog(lines).value[j])
  {
    ParseRowsShape(DataLines(lines));
  }

  /** A loaded catalog holds, in file order, the record of each non-blank line after the header. */
  lemma CatalogContent(lines: seq<string>)
    requires ParseCatalog(lines).Success?
    ensures |ParseCatalog(lines).value| == |NonBlank(DataLines(lines))|
    ensures forall j :: 0 <= j < |NonBlank(DataLines(lines))| ==>
              var line := NonBlank(DataLines(lines))[j];
              ParseRow(line).Success? && ParseCatalog(lines).value[j] == ParseRow(line).value
  {
    ParseRowsContent(DataLines(lines));
  }

  /** Once a prefix of the data lines fails, the whole parse fails: the loop stops at the first bad line. */
  lemma {:induction false} FailureIsFinal(rows: seq<string>, k: nat)
    requires k <= |rows| && ParseRows(rows[..k]).Failure?
    ensures ParseRows(rows).Failure?
    decreases |rows| - k
  {
    if k < |rows| {
      assert rows[..k + 1][..k] == rows[..k];
      FailureIsFinal(rows, k + 1);
    } else {
      assert rows[..k] == rows;
    }
  }

  /** The line loop of load_objects, appending one record per non-blank data line. */
  method LoadObjects(lines: seq<string>) returns (r: Result<seq<Opponent>, LoadError>)
    ensures r == ParseCatalog(lines)
  {
    var rows := DataLines(lines);
    var objects: seq<Opponent> := [];
    for k := 0 to |rows|
      invariant ParseRows(rows[..k]) == Success(objects)
    {
      var line := rows[k];
      assert rows[..k + 1][..k] == rows[..k];
      assert ParseRows(rows[..k + 1]) == ParseNext(Success(objects), line);
      if IsBlank(line) {
        continue;
      }
      var parsed := ParseRow(line);
      if parsed.Failure? {
        FailureIsFinal(rows, k + 1);
        assert ParseRows(rows).error == MissingComma;
        return Failure(MissingComma);
      }
      objects := objects + [parsed.value];
    }
    assert rows[..|rows|] == rows;
    return Success(objects);
  }
}
