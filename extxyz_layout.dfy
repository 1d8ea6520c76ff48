/** The `Properties=` layout of an extended-XYZ comment line, as ASE's
    extended XYZ format defines it: a colon-separated list of
    `name:type:columns` triples describing the columns of each atom line.
    The layout string is parsed into property records, each with the
    location of its columns, and can be rendered back. */
module ExtXyzLayout {
  import opened Wrappers
  import opened PyText

  /** A property's `loc`: a Python `slice(start, stop)` or a plain index. */
  datatype Loc = Index(i: int) | Slice(start: int, stop: int)

  /** The `Property` dataclass. `nCols` is the column-count field as it was
      written in the record (a string, not the parsed integer). */
  datatype Property = Property(name: string, typename: string, nCols: string, loc: Loc)

  /** The `EXTXYZLayout` dataclass once `__post_init__` has filled in its
      properties. */
  datatype Layout = Layout(record: string, properties: seq<Property>)

  /** `Property.__str__`. */
  function PropertyStr(p: Property): string {
    p.name + ":" + p.typename + ":" + p.nCols
  }

  /** `EXTXYZLayout.__str__`: the properties rendered and joined with `:`. */
  function LayoutStr(layout: Layout): string {
    var ps := layout.properties;
    Join(seq(|ps|, i requires 0 <= i < |ps| => PropertyStr(ps[i])), ':')
  }

  /** The location of the property at position `idx` with `n` columns:
      `start, stop = idx, idx + n`, a slice when `stop > start + 1`, else the
      bare start. The start is the property's position, not a column offset. */
  function LocFor(idx: nat, n: int): Loc {
    var start, stop := idx, idx + n;
    if stop > start + 1 then Slice(start, stop) else Index(start)
  }

  /** `len(fields) // 3`: the number of whole `(name, typename, n_cols)`
      triples, which is how many items `zip` of the three strided slices
      yields. */
  function Count(fields: seq<string>): (n: nat)
    ensures 3 * n <= |fields| < 3 * n + 3
  {
    |fields| / 3
  }

  /** The message of the `ValueError` that `int(s)` raises on a string that is
      not an integer literal: `repr(s)` cut to its first 200 characters. */
  function IntLiteralMessage(s: string): string {
    var r := StrRepr(s);
    "invalid literal for int() with base 10: " + (if |r| <= 200 then r else r[..200])
  }

  /** For a string of plain characters the message shows it between single
      quotes, cut after 199 of its characters when the quoted form would be
      longer than 200. */
  lemma IntLiteralMessagePlain(s: string)
    requires forall i :: 0 <= i < |s| ==> PlainChar(s[i])
    ensures |s| <= 198 ==> IntLiteralMessage(s) == "invalid literal for int() with base 10: '" + s + "'"
    ensures |s| > 198 ==> IntLiteralMessage(s) == "invalid literal for int() with base 10: '" + s[..199]
  {
    StrReprPlain(s);
    if |s| > 198 {
      assert ("'" + s + "'")[..200] == "'" + s[..199];
    }
  }

  /** A count holding a single quote is shown between double quotes. */
  lemma IntLiteralMessageQuote()
    ensures IntLiteralMessage("x'y") == "invalid literal for int() with base 10: \"x'y\""
  {
    StrReprOfQuote();
  }

  /** `int(n_cols)` for every whole triple, in order; `None` where `int`
      raises. */
  function ColumnCounts(fields: seq<string>): (counts: seq<Option<int>>)
    ensures |counts| == Count(fields)
  {
    seq(Count(fields), j requires 0 <= j < Count(fields) => ParseInt(fields[3 * j + 2]))
  }

  /** One loop step of `__post_init__`: the property built from the triple at
      position `idx` of the colon-separated fields given the result `parsed`
      of `int(n_cols)`, or the `ValueError` that `int` raised. */
  function MakeProperty(fields: seq<string>, idx: nat, parsed: Option<int>): (r: Result<Property, Exception>)
    requires idx < Count(fields)
  {
    var nCols := fields[3 * idx + 2];
    match parsed
    case None => Failure(ValueError(IntLiteralMessage(nCols)))
    case Some(n) => Success(Property(fields[3 * idx], fields[3 * idx + 1], nCols, LocFor(idx, n)))
  }

  /** The properties built from the triples at positions `idx` onwards, or the
      first error. */
  function BuildFrom(fields: seq<string>, counts: seq<Option<int>>, idx: nat): Result<seq<Property>, Exception>
    requires |counts| == Count(fields) && idx <= Count(fields)
    decreases |counts| - idx
  {
    if idx == |counts| then Success([])
    else
      match MakeProperty(fields, idx, counts[idx])
      case Failure(e) => Failure(e)
      case Success(p) =>
        match BuildFrom(fields, counts, idx + 1)
        case Failure(e) => Failure(e)
        case Success(ps) => Success([p] + ps)
  }

  /** Building from `idx` succeeds exactly when every count from `idx` on
      parsed, and then yields one property per triple, each made from its own
      triple. */
  lemma {:induction false} BuildFromSpec(fields: seq<string>, counts: seq<Option<int>>, idx: nat)
    requires |counts| == Count(fields) && idx <= Count(fields)
    ensures var r := BuildFrom(fields, counts, idx);
      r.Success? <==> forall j :: idx <= j < |counts| ==> counts[j].Some?
    ensures var r := BuildFrom(fields, counts, idx);
      r.Success? ==> |r.value| == |counts| - idx
    ensures var r := BuildFrom(fields, counts, idx);
      r.Success? ==> forall j :: 0 <= j < |r.value| ==> r.value[j] == MakeProperty(fields, idx + j, counts[idx + j]).value
    decreases |counts| - idx
  {
    if idx < |counts| {
      BuildFromSpec(fields, counts, idx + 1);
      var r := BuildFrom(fields, counts, idx);
      if counts[idx].Some? {
        var rest := BuildFrom(fields, counts, idx + 1);
        if rest.Success? {
          assert r.value == [MakeProperty(fields, idx, counts[idx]).value] + rest.value;
          assert forall j :: 1 <= j < |r.value| ==> r.value[j] == rest.value[j - 1];
        }
      }
    }
  }

  /** `EXTXYZLayout(record)`: the record split on `:` and read as
      `(name, typename, n_cols)` triples in order; `len(fields) // 3`
      properties, trailing fields that do not make a full triple ignored;
      `ValueError` when a column count is not an integer literal. */
  function LayoutOf(record: string): Result<Layout, Exception> {
    var fields := Split(record, ':');
    match BuildFrom(fields, ColumnCounts(fields), 0)
    case Failure(e) => Failure(e)
    case Success(ps) => Success(Layout(record, ps))
  }

  /** Every column count is an integer. */
  predicate AllParsed(counts: seq<Option<int>>) {
    forall j :: 0 <= j < |counts| ==> counts[j].Some?
  }

  /** Building every triple succeeds exactly when every count parsed, and
      then yields the property of each triple at its position. */
  lemma BuildAllSpec(fields: seq<string>, counts: seq<Option<int>>)
    requires |counts| == Count(fields)
    ensures BuildFrom(fields, counts, 0).Success? <==> AllParsed(counts)
    ensures BuildFrom(fields, counts, 0).Success? ==> |BuildFrom(fields, counts, 0).value| == |counts|
    ensures BuildFrom(fields, counts, 0).Success? ==> forall j :: 0 <= j < |counts| ==>
      counts[j].Some? &&
      BuildFrom(fields, counts, 0).value[j] ==
        Property(fields[3 * j], fields[3 * j + 1], fields[3 * j + 2], LocFor(j, counts[j].value))
  {
    BuildFromSpec(fields, counts, 0);
    var built := BuildFrom(fields, counts, 0);
    if built.Success? {
      forall j | 0 <= j < |counts|
        ensures counts[j].Some?
        ensures built.value[j] == Property(fields[3 * j], fields[3 * j + 1], fields[3 * j + 2], LocFor(j, counts[j].value))
      {
        assert built.value[j] == MakeProperty(fields, j, counts[j]).value;
      }
    }
  }

  /** `EXTXYZLayout(record)` succeeds exactly when every column count is an
      integer literal. */
  lemma LayoutOfSucceeds(record: string)
    ensures LayoutOf(record).Success? <==> AllParsed(ColumnCounts(Split(record, ':')))
  {
    var fields := Split(record, ':');
    var counts := ColumnCounts(fields);
    BuildAllSpec(fields, counts);
    assert LayoutOf(record).Success? <==> BuildFrom(fields, counts, 0).Success?;
  }

  /** A layout that parses keeps its record and holds `len(fields) // 3`
      properties, the one at position `j` made from the `j`-th triple with
      the location computed from its position and column count. */
  lemma LayoutOfSpec(record: string)
    requires LayoutOf(record).Success?
    ensures LayoutOf(record).value.record == record
    ensures |LayoutOf(record).value.properties| == Count(Split(record, ':'))
    ensures var fields := Split(record, ':');
      forall j :: 0 <= j < |LayoutOf(record).value.properties| ==>
        ColumnCounts(fields)[j].Some? &&
        LayoutOf(record).value.properties[j] ==
          Property(fields[3 * j], fields[3 * j + 1], fields[3 * j + 2], LocFor(j, ColumnCounts(fields)[j].value))
  {
    var fields := Split(record, ':');
    var counts := ColumnCounts(fields);
    BuildAllSpec(fields, counts);
    assert LayoutOf(record) == Success(Layout(record, BuildFrom(fields, counts, 0).value));
  }

  /** The error `EXTXYZLayout(record)` raises is `int`'s `ValueError` for the
      first column count that is not an integer literal. */
  lemma LayoutOfFirstError(record: string, j: nat)
    requires j < Count(Split(record, ':'))
    requires ColumnCounts(Split(record, ':'))[j].None?
    requires forall k :: 0 <= k < j ==> ColumnCounts(Split(record, ':'))[k].Some?
    ensures LayoutOf(record) == Failure(ValueError(IntLiteralMessage(Split(record, ':')[3 * j + 2])))
  {
    var fields := Split(record, ':');
    BuildFromFirstFailure(fields, ColumnCounts(fields), 0, j);
  }

  /** `EXTXYZLayout.__post_init__`: the loop that appends one property per
      triple to a local list, then stores the list. */
  method ParseLayout(record: string) returns (r: Result<Layout, Exception>)
    ensures r == LayoutOf(record)
  {
    var fields := Split(record, ':');
    var built := ParseProperties(fields);
    if built.Failure? {
      return Failure(built.error);
    }
    r := Success(Layout(record, built.value));
  }

  /** The loop of `__post_init__`: one property appended per whole triple,
      stopping at the first `int(n_cols)` that raises. */
  method ParseProperties(fields: seq<string>) returns (r: Result<seq<Property>, Exception>)
    ensures r == BuildFrom(fields, ColumnCounts(fields), 0)
  {
    var count := Count(fields);
    var properties: seq<Property> := [];
    ghost var counts := ColumnCounts(fields);
    for idx := 0 to count
      invariant |properties| == idx
      invariant forall j :: 0 <= j < idx ==> counts[j].Some?
      invariant forall j :: 0 <= j < idx ==> properties[j] == MakeProperty(fields, j, counts[j]).value
    {
      var nCols := fields[3 * idx + 2];
      var n := ParseInt(nCols);
      assert n == counts[idx];
      if n.None? {
        BuildFromFirstFailure(fields, counts, 0, idx);
        return Failure(ValueError(IntLiteralMessage(nCols)));
      }
      var property := Property(fields[3 * idx], fields[3 * idx + 1], nCols, LocFor(idx, n.value));
      assert MakeProperty(fields, idx, counts[idx]) == Success(property);
      properties := properties + [property];
    }
    BuildFromAllParsed(fields, counts, properties, 0);
    assert properties[0..] == properties;
    r := Success(properties);
  }

  /** When every triple from `from` on parses, building from `from` gives
      the properties made one by one. */
  lemma {:induction false} BuildFromAllParsed(fields: seq<string>, counts: seq<Option<int>>, properties: seq<Property>, from: nat)
    requires |counts| == Count(fields) && |properties| == |counts| && from <= |counts|
    requires forall j :: from <= j < |counts| ==> counts[j].Some?
    requires forall j :: from <= j < |counts| ==> properties[j] == MakeProperty(fields, j, counts[j]).value
    ensures BuildFrom(fields, counts, from) == Success(properties[from..])
    decreases |counts| - from
  {
    if from < |counts| {
      BuildFromAllParsed(fields, counts, properties, from + 1);
      assert properties[from..] == [properties[from]] + properties[from + 1..];
    }
  }

  /** When the triples from `from` up to `idx` parse and the one at `idx` does
      not, building from `from` fails with the error of `idx`. */
  lemma {:induction false} BuildFromFirstFailure(fields: seq<string>, counts: seq<Option<int>>, from: nat, idx: nat)
    requires |counts| == Count(fields) && from <= idx < |counts|
    requires forall j :: from <= j < idx ==> counts[j].Some?
    requires counts[idx].None?
    ensures BuildFrom(fields, counts, from) == Failure(MakeProperty(fields, idx, counts[idx]).error)
    decreases idx - from
  {
    if from < idx {
      BuildFromFirstFailure(fields, counts, from + 1, idx);
    }
  }

  /** `EXTXYZLayout.get_loc(name, default)`: the loop returns on its first
      iteration, so only the first property is ever compared with `name`;
      with no properties the loop is skipped and the method returns `None`
      whatever `default` is. */
  method GetLoc(layout: Layout, name: string, default: Option<Loc>) returns (r: Option<Loc>)
    ensures layout.properties == [] ==> r == None
    ensures layout.properties != [] && layout.properties[0].name == name ==> r == Some(layout.properties[0].loc)
    ensures layout.properties != [] && layout.properties[0].name != name ==> r == default
  {
    var ps := layout.properties;
    for i := 0 to |ps|
      invariant i == 0
    {
      if ps[i].name == name {
        return Some(ps[i].loc);
      }
      return default;
    }
    return None;
  }

  /** The location of the first property called `name`, looking at every
      property: the lookup `get_loc` evidently means to perform. */
  function FirstMatch(ps: seq<Property>, name: string): (r: Option<Loc>)
    ensures r.None? <==> forall i :: 0 <= i < |ps| ==> ps[i].name != name
    ensures r.Some? ==> exists i :: (0 <= i < |ps| && ps[i].name == name && r.value == ps[i].loc
                                     && forall j :: 0 <= j < i ==> ps[j].name != name)
  {
    if ps == [] then None
    else if ps[0].name == name then Some(ps[0].loc)
    else
      var r := FirstMatch(ps[1..], name);
      assert forall j :: 1 <= j < |ps| ==> ps[j] == ps[1..][j - 1];
      r
  }

  /** `get_loc` with `return default` after the loop instead of inside it:
      the location of the first property called `name`, or `default` when no
      property has that name. */
  method FindLoc(layout: Layout, name: string, default: Option<Loc>) returns (r: Option<Loc>)
    ensures FirstMatch(layout.properties, name).Some? ==> r == FirstMatch(layout.properties, name)
    ensures FirstMatch(layout.properties, name).None? ==> r == default
  {
    var ps := layout.properties;
    for i := 0 to |ps|
      invariant FirstMatch(ps, name) == FirstMatch(ps[i..], name)
    {
      if ps[i].name == name {
        return Some(ps[i].loc);
      }
      assert ps[i..][1..] == ps[i + 1..];
    }
    return default;
  }

  /** Looking up a property that is not the first, whose name differs from
      the first one's: `get_loc` as written answers `default`, while the
      corrected lookup finds the property. */
  method GetLocMissesSecond(layout: Layout, default: Option<Loc>) returns (asWritten: Option<Loc>, corrected: Option<Loc>)
    requires |layout.properties| >= 2
    requires layout.properties[0].name != layout.properties[1].name
    ensures asWritten == default
    ensures corrected == Some(layout.properties[1].loc)
  {
    var ps := layout.properties;
    asWritten := GetLoc(layout, ps[1].name, default);
    corrected := FindLoc(layout, ps[1].name, default);
    assert ps[1..][0] == ps[1];
  }

  // ---------------------------------------------------------------------------
  // The `Properties=` token of the comment line

  /** `w.startswith("Properties")`. */
  predicate IsPropertiesWord(w: string) {
    StartsWith(w, "Properties")
  }

  /** `w.replace('Properties=', '')`. */
  function DropPropertiesKey(w: string): string {
    ReplaceAll(w, "Properties=", "")
  }

  /** `[w.replace('Properties=', '') for w in words if w.startswith("Properties")]`. */
  function PropertiesTokens(words: seq<string>): seq<string> {
    if words == [] then []
    else (if IsPropertiesWord(words[0]) then [DropPropertiesKey(words[0])] else []) + PropertiesTokens(words[1..])
  }

  /** There are tokens exactly when some word starts with `Properties`. */
  lemma {:induction false} PropertiesTokensEmpty(words: seq<string>)
    ensures PropertiesTokens(words) == [] <==> forall i :: 0 <= i < |words| ==> !IsPropertiesWord(words[i])
  {
    if words != [] {
      var rest := words[1..];
      PropertiesTokensEmpty(rest);
      assert forall j :: 1 <= j < |words| ==> words[j] == rest[j - 1];
    }
  }

  /** The first token comes from the first word that starts with
      `Properties`. */
  lemma {:induction false} PropertiesTokensFirst(words: seq<string>, i: nat)
    requires i < |words| && IsPropertiesWord(words[i])
    requires forall j :: 0 <= j < i ==> !IsPropertiesWord(words[j])
    ensures PropertiesTokens(words) != [] && PropertiesTokens(words)[0] == DropPropertiesKey(words[i])
    decreases i
  {
    if i > 0 {
      var rest := words[1..];
      assert !IsPropertiesWord(words[0]);
      assert PropertiesTokens(words) == PropertiesTokens(rest);
      assert forall j :: 0 <= j < i - 1 ==> rest[j] == words[j + 1];
      PropertiesTokensFirst(rest, i - 1);
    }
  }

  /** The layout string `parse` hands to `EXTXYZLayout`: the first
      whitespace-separated token of the comment line that starts with
      `Properties`, with every `Properties=` removed from it; `IndexError`
      when the line has no such token. */
  function LayoutRecord(line: string): (r: Result<string, Exception>)
    ensures r.Failure? <==> forall i :: 0 <= i < |Words(line)| ==> !IsPropertiesWord(Words(line)[i])
    ensures r.Failure? ==> r.error == IndexError
  {
    PropertiesTokensEmpty(Words(line));
    var tokens := PropertiesTokens(Words(line));
    if tokens == [] then Failure(IndexError) else Success(tokens[0])
  }

  /** When the `i`-th word is the first one starting with `Properties`, the
      layout string is that word with its `Properties=` keys removed. */
  lemma LayoutRecordFirst(line: string, i: nat)
    requires i < |Words(line)| && IsPropertiesWord(Words(line)[i])
    requires forall j :: 0 <= j < i ==> !IsPropertiesWord(Words(line)[j])
    ensures LayoutRecord(line) == Success(DropPropertiesKey(Words(line)[i]))
  {
    PropertiesTokensFirst(Words(line), i);
  }

  // ---------------------------------------------------------------------------
  // Properties of the layout

  lemma {:induction false} PropertiesTokensAppend(a: seq<string>, b: seq<string>)
    ensures PropertiesTokens(a + b) == PropertiesTokens(a) + PropertiesTokens(b)
  {
    if a != [] {
      PropertiesTokensAppend(a[1..], b);
      assert (a + b)[1..] == a[1..] + b;
      assert (a + b)[0] == a[0];
      var head := if IsPropertiesWord(a[0]) then [DropPropertiesKey(a[0])] else [];
      assert PropertiesTokens(a) == head + PropertiesTokens(a[1..]);
      assert PropertiesTokens(a + b) == head + PropertiesTokens(a[1..] + b);
    } else {
      assert a + b == b;
    }
  }

  /** The words of `pre + (token + rest)`, where the token is a whole word
      standing between whitespace (or the ends of the line). */
  lemma WordsAround(pre: string, token: string, rest: string)
    requires pre == [] || IsSpace(pre[|pre| - 1])
    requires |token| > 0 && forall i :: 0 <= i < |token| ==> !IsSpace(token[i])
    requires rest == [] || IsSpace(rest[0])
    ensures Words(pre + (token + rest)) == Words(pre) + ([token] + Words(rest))
  {
    WordsAfterSpace(pre, token + rest);
    WordsAppend(token, rest);
    WordsOfWord(token);
  }

  /** The token `Properties=<rec>` starts with `Properties`, and removing the
      key from it leaves `rec` when `rec` holds no further key. */
  lemma PropertiesToken(rec: string)
    requires !Occurs("Properties=", rec)
    ensures IsPropertiesWord("Properties=" + rec)
    ensures DropPropertiesKey("Properties=" + rec) == rec
  {
    var pat := "Properties=";
    var token := pat + rec;
    assert token[..10] == "Properties";
    assert token[..|pat|] == pat && token[|pat|..] == rec;
    ReplaceAllAbsent(rec, pat, "");
  }

  /** A comment line holding the token `Properties=<rec>`, after words none of
      which starts with `Properties`, yields `rec` as the layout string. */
  lemma CommentLineRecord(pre: string, rec: string, rest: string)
    requires pre == [] || IsSpace(pre[|pre| - 1])
    requires forall i :: 0 <= i < |Words(pre)| ==> !IsPropertiesWord(Words(pre)[i])
    requires forall i :: 0 <= i < |rec| ==> !IsSpace(rec[i])
    requires !Occurs("Properties=", rec)
    requires rest == [] || IsSpace(rest[0])
    ensures LayoutRecord(pre + ("Properties=" + rec + rest)) == Success(rec)
  {
    var token := "Properties=" + rec;
    WordsAround(pre, token, rest);
    PropertiesTokensEmpty(Words(pre));
    PropertiesToken(rec);
    PropertiesTokensAppend(Words(pre), [token] + Words(rest));
    PropertiesTokensAppend([token], Words(rest));
    assert PropertiesTokens(Words(pre)) == [];
    assert PropertiesTokens([token]) == [rec];
  }

  lemma {:induction false} JoinTriples(ps: seq<Property>, fields: seq<string>)
    requires |fields| == 3 * |ps|
    requires forall j :: 0 <= j < |ps| ==>
      ps[j].name == fields[3 * j] && ps[j].typename == fields[3 * j + 1] && ps[j].nCols == fields[3 * j + 2]
    ensures LayoutStr(Layout([], ps)) == Join(fields, ':')
  {
    var strs := seq(|ps|, i requires 0 <= i < |ps| => PropertyStr(ps[i]));
    if |ps| > 0 {
      var tail := seq(|ps| - 1, i requires 0 <= i < |ps| - 1 => PropertyStr(ps[1..][i]));
      forall j | 0 <= j < |ps| - 1
        ensures ps[1..][j].name == fields[3..][3 * j] && ps[1..][j].typename == fields[3..][3 * j + 1]
          && ps[1..][j].nCols == fields[3..][3 * j + 2]
      {
        assert ps[1..][j] == ps[j + 1];
        assert 3 * (j + 1) == 3 * j + 3;
      }
      JoinTriples(ps[1..], fields[3..]);
      assert strs[1..] == tail;
      var head := fields[0] + [':'] + fields[1] + [':'] + fields[2];
      assert strs[0] == head;
      assert fields[1..][0] == fields[1] && fields[1..][1..] == fields[2..];
      assert fields[2..][0] == fields[2] && fields[2..][1..] == fields[3..];
      var j2 := Join(fields[2..], ':');
      assert Join(fields, ':') == fields[0] + [':'] + (fields[1] + [':'] + j2);
      if |ps| == 1 {
        assert j2 == fields[2];
        assert Join(strs, ':') == strs[0];
      } else {
        assert j2 == fields[2] + [':'] + Join(fields[3..], ':');
        assert Join(strs, ':') == strs[0] + [':'] + Join(tail, ':');
      }
    }
  }

  /** `str(EXTXYZLayout(record)) == record` whenever the record is a whole
      number of triples whose column counts all parse, so parsing the
      rendering gives the same layout back. */
  lemma RoundTrip(record: string)
    requires |Split(record, ':')| % 3 == 0
    requires LayoutOf(record).Success?
    ensures LayoutStr(LayoutOf(record).value) == record
    ensures LayoutOf(LayoutStr(LayoutOf(record).value)) == LayoutOf(record)
  {
    var fields := Split(record, ':');
    var layout := LayoutOf(record).value;
    LayoutOfSpec(record);
    JoinTriples(layout.properties, fields);
    assert LayoutStr(layout) == LayoutStr(Layout([], layout.properties));
    JoinSplit(record, ':');
  }

  /** The location of the property at position `j` starts at `j`: its columns
      are `j .. j + n - 1` for `n >= 2` columns, else the single index `j`. */
  lemma LocStartsAtPosition(record: string, j: nat)
    requires LayoutOf(record).Success?
    requires j < |LayoutOf(record).value.properties|
    ensures var p := LayoutOf(record).value.properties[j];
      ParseInt(p.nCols).Some? &&
      (ParseInt(p.nCols).value >= 2 ==> p.loc == Slice(j, j + ParseInt(p.nCols).value)) &&
      (ParseInt(p.nCols).value < 2 ==> p.loc == Index(j))
  {
    LayoutOfSpec(record);
  }

  /** Because locations start at the property's position, a first property
      spanning several columns claims the column that the second property is
      also assigned. */
  lemma SecondPropertyOverlapsFirst(record: string)
    requires LayoutOf(record).Success?
    requires |LayoutOf(record).value.properties| >= 2
    requires LayoutOf(record).value.properties[0].loc.Slice?
    ensures var ps := LayoutOf(record).value.properties;
      var second := if ps[1].loc.Index? then ps[1].loc.i else ps[1].loc.start;
      ps[0].loc.start <= second < ps[0].loc.stop
  {
    LocStartsAtPosition(record, 0);
    LocStartsAtPosition(record, 1);
  }

  /** The fields of the record `pos:R:3:species:S:1`, in which a
      three-column property precedes a one-column one. */
  const ExampleFields: seq<string> := ["pos", "R", "3", "species", "S", "1"]

  /** Parsing that record places the second property at column 1, inside the
      first property's columns 0 to 2, where its own column is 3. */
  lemma IndexLocExample(record: string)
    requires Split(record, ':') == ExampleFields
    ensures LayoutOf(record).Success?
    ensures LayoutOf(record).value.properties ==
      [Property("pos", "R", "3", Slice(0, 3)), Property("species", "S", "1", Index(1))]
    ensures ColumnLoc([3, 1], 1) == Index(3)
  {
    ExampleCounts();
    ExampleProperties();
    LayoutOfSpec(record);
    assert ColumnOffset([3, 1], 1) == 3;
  }

  /** The column counts of the example record. */
  lemma ExampleCounts()
    ensures ColumnCounts(ExampleFields) == [Some(3), Some(1)]
  {
    assert Trim("3") == "3";
    assert Trim("1") == "1";
  }

  /** The properties built from the example fields and their counts. */
  lemma ExampleProperties()
    ensures BuildFrom(ExampleFields, [Some(3), Some(1)], 0) ==
      Success([Property("pos", "R", "3", Slice(0, 3)), Property("species", "S", "1", Index(1))])
  {
    var fields, counts := ExampleFields, [Some(3), Some(1)];
    var p0, p1 := Property("pos", "R", "3", Slice(0, 3)), Property("species", "S", "1", Index(1));
    assert BuildFrom(fields, counts, 2) == Success([]);
    assert MakeProperty(fields, 1, counts[1]) == Success(p1);
    assert BuildFrom(fields, counts, 1) == Success([p1] + []);
    assert [p1] + [] == [p1];
    assert MakeProperty(fields, 0, counts[0]) == Success(p0);
    assert BuildFrom(fields, counts, 0) == Success([p0] + [p1]);
    assert [p0] + [p1] == [p0, p1];
  }

  // ---------------------------------------------------------------------------
  // Locations as column offsets

  /** The first column of the property at position `j` when each property
      occupies its `counts[i]` columns, one property after another. */
  function ColumnOffset(counts: seq<nat>, j: nat): nat
    requires j <= |counts|
  {
    if j == 0 then 0 else ColumnOffset(counts, j - 1) + counts[j - 1]
  }

  /** The location of the property at position `j` counted in columns: a
      slice over its columns when it has several, else its single column. */
  function ColumnLoc(counts: seq<nat>, j: nat): Loc
    requires j < |counts|
  {
    var start, stop := ColumnOffset(counts, j), ColumnOffset(counts, j) + counts[j];
    if stop > start + 1 then Slice(start, stop) else Index(start)
  }

  /** The first column a location selects. */
  function FirstCol(loc: Loc): int {
    match loc
    case Index(i) => i
    case Slice(start, _) => start
  }

  /** The last column a location selects. */
  function LastCol(loc: Loc): int {
    match loc
    case Index(i) => i
    case Slice(_, stop) => stop - 1
  }

  /** Column offsets grow by at least the columns of each property passed. */
  lemma {:induction false} ColumnOffsetsOrdered(counts: seq<nat>, j: nat, k: nat)
    requires j < k < |counts|
    ensures ColumnOffset(counts, j) + counts[j] <= ColumnOffset(counts, k)
    decreases k - j
  {
    if j + 1 < k {
      ColumnOffsetsOrdered(counts, j, k - 1);
    }
  }

  /** Column locations never overlap: every column of the property at
      position `j` comes before the first column of any later property, and
      the next property starts right after it, so no column is skipped. */
  lemma ColumnLocsDisjoint(counts: seq<nat>, j: nat, k: nat)
    requires j < k < |counts| && counts[j] > 0
    ensures LastCol(ColumnLoc(counts, j)) < FirstCol(ColumnLoc(counts, k))
    ensures k == j + 1 ==> LastCol(ColumnLoc(counts, j)) + 1 == FirstCol(ColumnLoc(counts, k))
  {
    ColumnOffsetsOrdered(counts, j, k);
  }
}
