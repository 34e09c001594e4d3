/**
 * Sort-string parsing: `"name:asc,createdAt:desc"` becomes an ordered list of
 * (field, direction) records, with directions normalised to `asc`/`desc`.
 */
module SortUtils {
  import opened Wrappers
  import opened Text

  const ASC: string := "asc"
  const DESC: string := "desc"

  /** One sort key: an immutable (field, direction) record. */
  datatype SortInfo = SortInfo(field: string, direction: string)

  /** The dictionary form of a SortInfo, with the keys "field" and "direction". */
  type SortDict = map<string, string>

  predicate IsDirection(d: string)
  {
    d == ASC || d == DESC
  }

  /** Every record in the list carries `asc` or `desc`. */
  predicate AllDirectionsValid(infos: seq<SortInfo>)
  {
    forall i :: 0 <= i < |infos| ==> IsDirection(infos[i].direction)
  }

  /**
   * The direction text after a colon, trimmed and lower-cased; anything but
   * `asc`/`desc` falls back to `asc`.
   */
  function NormalizeDirection(text: string): (d: string)
    ensures IsDirection(d)
    ensures IsDirection(Lower(Strip(text))) ==> d == Lower(Strip(text))
    ensures !IsDirection(Lower(Strip(text))) ==> d == ASC
  {
    var lowered := Lower(Strip(text));
    if lowered == ASC || lowered == DESC then lowered else ASC
  }

  /** The records one comma-separated part contributes: at most one, with a normalised direction. */
  function Entries(part: string): (r: seq<SortInfo>)
    ensures |r| <= 1
    ensures AllDirectionsValid(r)
  {
    var p := Strip(part);
    if p == [] then []
    else if ':' in p then
      var fieldDirection := SplitOnce(p, ':');
      if |fieldDirection| == 2 then [SortInfo(Strip(fieldDirection[0]), NormalizeDirection(fieldDirection[1]))]
      else []
    else [SortInfo(p, ASC)]
  }

  /** The records of a list of parts, in the order of the parts. */
  function ParseParts(parts: seq<string>): (r: seq<SortInfo>)
    ensures AllDirectionsValid(r)
    ensures |r| <= |parts|
  {
    if parts == [] then []
    else ParseParts(parts[..|parts| - 1]) + Entries(parts[|parts| - 1])
  }

  /** What `parse_sort` returns: nothing for None, empty or blank input, else the records of the comma-separated parts. */
  function ParsedSort(sortString: Option<string>): (r: seq<SortInfo>)
    ensures AllDirectionsValid(r)
    ensures sortString.None? || IsBlank(sortString.value) ==> r == []
  {
    if sortString.None? then []
    else
      StripBlank(sortString.value);
      if sortString.value == [] || Strip(sortString.value) == [] then []
      else ParseParts(Split(sortString.value, ','))
  }

  /** `parse_sort`: the loop over the comma-separated parts. */
  method ParseSort(sortString: Option<string>) returns (sortInfos: seq<SortInfo>)
    ensures sortInfos == ParsedSort(sortString)
    ensures AllDirectionsValid(sortInfos)
  {
    if sortString.None? || sortString.value == [] || Strip(sortString.value) == [] {
      return [];
    }
    sortInfos := [];
    var parts := Split(sortString.value, ',');
    for k := 0 to |parts|
      invariant sortInfos == ParseParts(parts[..k])
    {
      assert parts[..k + 1][..k] == parts[..k];
      var part := Strip(parts[k]);
      if part == [] {
        continue;
      }
      if ':' in part {
        var fieldDirection := SplitOnce(part, ':');
        if |fieldDirection| == 2 {
          var field := Strip(fieldDirection[0]);
          var direction := Lower(Strip(fieldDirection[1]));
          if direction != ASC && direction != DESC {
            direction := ASC;
          }
          sortInfos := sortInfos + [SortInfo(field, direction)];
        }
      } else {
        sortInfos := sortInfos + [SortInfo(part, ASC)];
      }
    }
    assert parts[..|parts|] == parts;
  }

  /** Parsing distributes over concatenation of parts: the records keep the order of the parts. */
  lemma {:induction false} ParsePartsAppend(a: seq<string>, b: seq<string>)
    ensures ParseParts(a + b) == ParseParts(a) + ParseParts(b)
    decreases |b|
  {
    if b == [] {
      assert a + b == a;
    } else {
      var b' := b[..|b| - 1];
      assert (a + b)[..|a + b| - 1] == a + b';
      assert (a + b)[|a + b| - 1] == b[|b| - 1];
      ParsePartsAppend(a, b');
    }
  }

  /** A blank part contributes nothing; any other part contributes exactly one record. */
  lemma EntriesCount(part: string)
    ensures |Entries(part)| == if IsBlank(part) then 0 else 1
  {
    StripBlank(part);
  }

  /** Number of parts that are not blank. */
  function NonBlankCount(parts: seq<string>): nat
  {
    if parts == [] then 0
    else NonBlankCount(parts[..|parts| - 1]) + (if IsBlank(parts[|parts| - 1]) then 0 else 1)
  }

  /** Exactly the non-blank parts produce a record; a colon never makes a part drop out. */
  lemma {:induction false} ParsePartsLength(parts: seq<string>)
    ensures |ParseParts(parts)| == NonBlankCount(parts)
  {
    if parts != [] {
      ParsePartsLength(parts[..|parts| - 1]);
      EntriesCount(parts[|parts| - 1]);
    }
  }

  /** Non-blank sort strings joined by a comma parse to the records of the first followed by those of the second. */
  lemma ParsedSortConcat(a: string, b: string)
    requires !IsBlank(a) && !IsBlank(b)
    ensures ParsedSort(Some(a + [','] + b)) == ParsedSort(Some(a)) + ParsedSort(Some(b))
  {
    var s := a + [','] + b;
    assert !IsBlank(s) by {
      var k :| 0 <= k < |a| && !IsSpace(a[k]);
      assert s[k] == a[k];
    }
    StripBlank(s);
    StripBlank(a);
    StripBlank(b);
    SplitConcat(a, ',', b);
    ParsePartsAppend(Split(a, ','), Split(b, ','));
  }

  /** A part with a colon gives the trimmed text before its FIRST colon and the normalised rest. */
  lemma EntriesWithColon(part: string, field: string, rest: string)
    requires ':' !in field
    requires Strip(part) == field + [':'] + rest
    ensures Entries(part) == [SortInfo(Strip(field), NormalizeDirection(rest))]
  {
    SplitOnceAtFirst(field, ':', rest);
  }

  /** A non-blank input without commas or colons is one field, sorted ascending. */
  lemma ParsedSortSingleField(s: string)
    requires ',' !in s && ':' !in s && !IsBlank(s)
    ensures ParsedSort(Some(s)) == [SortInfo(Strip(s), ASC)]
  {
    StripBlank(s);
    SplitWithoutSep(s, ',');
    StripKeepsAbsent(s, ':');
    assert [s][..0] == [];
  }

  /** A one-part input without commas parses to that part's records. */
  lemma ParsedSortOnePart(s: string)
    requires ',' !in s && !IsBlank(s)
    ensures ParsedSort(Some(s)) == Entries(s)
  {
    StripBlank(s);
    SplitWithoutSep(s, ',');
    assert [s][..0] == [];
  }

  /** Direction text holding a colon is neither `asc` nor `desc`, so it normalises to `asc`. */
  lemma DirectionWithColon(text: string)
    requires ':' in text
    ensures NormalizeDirection(text) == ASC
  {
    LowerStripKeeps(text, ':');
  }

  /** Only the first colon splits a part: `"a:b:c"`-shaped parts keep the field before it and sort ascending. */
  lemma FirstColonOnly(part: string, field: string, rest: string)
    requires ':' !in field && ':' in rest
    requires Strip(part) == field + [':'] + rest
    ensures Entries(part) == [SortInfo(Strip(field), ASC)]
  {
    EntriesWithColon(part, field, rest);
    DirectionWithColon(rest);
  }

  /** `asc` and `desc` are read as themselves. */
  lemma NormalizeDirectionKeeps(direction: string)
    requires IsDirection(direction)
    ensures NormalizeDirection(direction) == direction
  {
    StripUntrimmed(direction);
    LowerNoUpper(direction);
  }

  /** A single `field:direction` sort with no surrounding whitespace parses to that field and the normalised direction. */
  lemma ParsedSortFieldDirection(s: string, field: string, rest: string)
    requires s == field + [':'] + rest && ',' !in s && ':' !in field
    requires field != [] && !IsSpace(field[0]) && !IsSpace(field[|field| - 1])
    requires rest == [] || !IsSpace(rest[|rest| - 1])
    ensures ParsedSort(Some(s)) == [SortInfo(field, NormalizeDirection(rest))]
  {
    assert s[0] == field[0];
    StripUntrimmed(s);
    StripUntrimmed(field);
    ParsedSortOnePart(s);
    EntriesWithColon(s, field, rest);
  }

  /** A field name that survives parsing as it is: non-empty, trimmed, without commas or colons. */
  predicate PlainField(field: string)
  {
    field != [] && !IsSpace(field[0]) && !IsSpace(field[|field| - 1]) && ',' !in field && ':' !in field
  }

  /** One record written as `field:direction`. */
  function FormatEntry(info: SortInfo): string
  {
    info.field + [':'] + info.direction
  }

  /** Records written the way `parse_sort` reads them: `field:direction` entries joined by commas. */
  function FormatSort(infos: seq<SortInfo>): string
  {
    if infos == [] then []
    else if |infos| == 1 then FormatEntry(infos[0])
    else FormatEntry(infos[0]) + [','] + FormatSort(infos[1..])
  }

  /** One `field:direction` entry parses back to its record. */
  lemma FormatEntryParses(info: SortInfo)
    requires PlainField(info.field) && IsDirection(info.direction)
    ensures ParsedSort(Some(FormatEntry(info))) == [info]
    ensures ',' !in FormatEntry(info) && !IsBlank(FormatEntry(info))
  {
    var entry := FormatEntry(info);
    assert ',' !in info.direction && info.direction[|info.direction| - 1] == 'c';
    assert entry[0] == info.field[0];
    ParsedSortFieldDirection(entry, info.field, info.direction);
    NormalizeDirectionKeeps(info.direction);
  }

  /** Records that FormatSort can write so that they read back: plain fields, `asc`/`desc` directions. */
  predicate Formattable(infos: seq<SortInfo>)
  {
    forall i :: 0 <= i < |infos| ==> PlainField(infos[i].field) && IsDirection(infos[i].direction)
  }

  /** FormatSort of two or more records: the first entry, a comma, then the rest; never blank. */
  lemma FormatSortCons(infos: seq<SortInfo>)
    requires |infos| > 1 && PlainField(infos[0].field)
    ensures FormatSort(infos) == FormatEntry(infos[0]) + [','] + FormatSort(infos[1..])
    ensures !IsBlank(FormatSort(infos))
  {
    assert FormatSort(infos)[0] == infos[0].field[0];
  }

  /** A `field:direction` entry put in front of a non-blank sort string adds its record in front. */
  lemma FormatEntryPrepend(info: SortInfo, s: string, tail: seq<SortInfo>)
    requires PlainField(info.field) && IsDirection(info.direction)
    requires ParsedSort(Some(s)) == tail && !IsBlank(s)
    ensures ParsedSort(Some(FormatEntry(info) + [','] + s)) == [info] + tail
  {
    FormatEntryParses(info);
    ParsedSortConcat(FormatEntry(info), s);
  }

  /** `parse_sort` inverts FormatSort for records with plain fields and valid directions. */
  lemma {:induction false} ParseFormatRoundTrip(infos: seq<SortInfo>)
    requires Formattable(infos)
    ensures ParsedSort(Some(FormatSort(infos))) == infos
    ensures infos != [] ==> !IsBlank(FormatSort(infos))
  {
    if |infos| == 1 {
      FormatEntryParses(infos[0]);
    } else if |infos| > 1 {
      assert Formattable(infos[1..]) by {
        forall i | 0 <= i < |infos| - 1 ensures infos[1..][i] == infos[i + 1] {}
      }
      ParseFormatRoundTrip(infos[1..]);
      FormatEntryPrepend(infos[0], FormatSort(infos[1..]), infos[1..]);
      FormatSortCons(infos);
      assert infos == [infos[0]] + infos[1..];
    }
  }

  /** Two `field:direction` entries joined by a comma parse to their two records. */
  lemma TwoEntriesParse(a: SortInfo, b: SortInfo)
    requires PlainField(a.field) && IsDirection(a.direction)
    requires PlainField(b.field) && IsDirection(b.direction)
    ensures ParsedSort(Some(FormatEntry(a) + [','] + FormatEntry(b))) == [a, b]
  {
    FormatEntryParses(b);
    FormatEntryPrepend(a, FormatEntry(b), [b]);
  }

  /** The two records of the example below, written out. */
  lemma TwoFieldsText()
    ensures FormatEntry(SortInfo("name", ASC)) + [','] + FormatEntry(SortInfo("createdAt", DESC)) == "name:asc,createdAt:desc"
  {
  }

  /** `"name:asc,createdAt:desc"` gives the two records in input order. */
  lemma ExampleTwoFields()
    ensures ParsedSort(Some("name:asc,createdAt:desc")) == [SortInfo("name", ASC), SortInfo("createdAt", DESC)]
  {
    assert PlainField("name") && PlainField("createdAt");
    TwoEntriesParse(SortInfo("name", ASC), SortInfo("createdAt", DESC));
    TwoFieldsText();
  }

  /** `"a:b:c"` gives field `"a"`; its direction text `"b:c"` falls back to `asc`. */
  lemma ExampleFirstColonOnly()
    ensures ParsedSort(Some("a:b:c")) == [SortInfo("a", ASC)]
  {
    assert "a:b:c" == "a" + [':'] + "b:c";
    ParsedSortFieldDirection("a:b:c", "a", "b:c");
    DirectionWithColon("b:c");
  }

  /** Direction text is trimmed and lower-cased before the check: `" DESC"` reads as `desc`. */
  lemma ExampleDirectionNormalised()
    ensures NormalizeDirection(" DESC") == DESC
  {
    assert Strip(" DESC") == "DESC" by {
      assert " DESC" == [' '] + "DESC";
      StripLeadingSpace(' ', "DESC");
      StripUntrimmed("DESC");
    }
    assert Lower("DESC") == DESC by {
      var lowered := Lower("DESC");
      assert lowered[0] == 'd' && lowered[1] == 'e' && lowered[2] == 's' && lowered[3] == 'c';
    }
  }

  /** So `"name: DESC"` sorts `name` descending. */
  lemma ExampleUpperCaseDirection()
    ensures ParsedSort(Some("name: DESC")) == [SortInfo("name", DESC)]
  {
    assert "name: DESC" == "name" + [':'] + " DESC";
    ParsedSortFieldDirection("name: DESC", "name", " DESC");
    ExampleDirectionNormalised();
  }

  /** `create_sort`'s direction for a simple field: the lower-cased default if it is asc/desc, else `asc`. */
  function DefaultDirection(defaultDirection: Option<string>): (d: string)
    ensures IsDirection(d)
    ensures defaultDirection.None? ==> d == ASC
    ensures defaultDirection.Some? && IsDirection(Lower(defaultDirection.value)) ==> d == Lower(defaultDirection.value)
    ensures defaultDirection.Some? && !IsDirection(Lower(defaultDirection.value)) ==> d == ASC
  {
    if defaultDirection.Some? && defaultDirection.value != [] && IsDirection(Lower(defaultDirection.value))
    then Lower(defaultDirection.value)
    else ASC
  }

  /** Input with a comma or a colon is a "complex" sort and goes to the parser. */
  predicate IsComplex(sortBy: string)
  {
    ',' in sortBy || ':' in sortBy
  }

  /**
   * `create_sort`: nothing for blank input, the parser for complex input, and
   * otherwise one record for the trimmed field with the default direction.
   */
  function CreateSort(sortBy: Option<string>, defaultDirection: Option<string>): (r: seq<SortInfo>)
    ensures AllDirectionsValid(r)
    ensures sortBy.Some? && !IsComplex(sortBy.value) && !IsBlank(sortBy.value) ==>
      r == [SortInfo(Strip(sortBy.value), DefaultDirection(defaultDirection))]
    ensures sortBy.Some? && IsComplex(sortBy.value) ==> r == ParsedSort(sortBy)
  {
    if sortBy.None? then []
    else
      StripBlank(sortBy.value);
      if sortBy.value == [] || Strip(sortBy.value) == [] then []
      else if ',' in sortBy.value || ':' in sortBy.value then ParsedSort(sortBy)
      else [SortInfo(Strip(sortBy.value), DefaultDirection(defaultDirection))]
  }

  /** `create_sort` agrees with `parse_sort` on every input whenever the default direction amounts to `asc`. */
  lemma CreateSortMatchesParse(sortBy: Option<string>, defaultDirection: Option<string>)
    requires DefaultDirection(defaultDirection) == ASC
    ensures CreateSort(sortBy, defaultDirection) == ParsedSort(sortBy)
  {
    if sortBy.Some? && sortBy.value != [] && Strip(sortBy.value) != [] && !IsComplex(sortBy.value) {
      StripBlank(sortBy.value);
      ParsedSortSingleField(sortBy.value);
    }
  }

  /** A simple, already trimmed field with a lower-case `asc`/`desc` default sorts by that field in that direction. */
  lemma CreateSortSimpleField(field: string, direction: string)
    requires field != [] && !IsSpace(field[0]) && !IsSpace(field[|field| - 1])
    requires ',' !in field && ':' !in field
    requires IsDirection(direction)
    ensures CreateSort(Some(field), Some(direction)) == [SortInfo(field, direction)]
  {
    StripUntrimmed(field);
    LowerNoUpper(direction);
    StripBlank(field);
  }

  /** `create_sort("name", "desc")` sorts `name` descending. */
  lemma ExampleSimpleWithDefault()
    ensures CreateSort(Some("name"), Some(DESC)) == [SortInfo("name", DESC)]
  {
    CreateSortSimpleField("name", DESC);
  }

  /** Blank or missing `sort_by` gives no records, whatever the default direction. */
  lemma CreateSortBlank(sortBy: Option<string>, defaultDirection: Option<string>)
    requires sortBy.None? || IsBlank(sortBy.value)
    ensures CreateSort(sortBy, defaultDirection) == []
  {
    if sortBy.Some? {
      StripBlank(sortBy.value);
    }
  }

  /** `to_sort_dict`: one dictionary per record, same order, same field and direction. */
  function ToSortDict(infos: seq<SortInfo>): (r: seq<SortDict>)
    ensures |r| == |infos|
    ensures forall i :: 0 <= i < |r| ==>
      r[i].Keys == {"field", "direction"} && r[i]["field"] == infos[i].field && r[i]["direction"] == infos[i].direction
  {
    seq(|infos|, i requires 0 <= i < |infos| => map["field" := infos[i].field, "direction" := infos[i].direction])
  }

  /** Reads records back from dictionaries that hold both keys. */
  function FromSortDict(dicts: seq<SortDict>): (r: seq<SortInfo>)
    requires forall i :: 0 <= i < |dicts| ==> "field" in dicts[i] && "direction" in dicts[i]
    ensures |r| == |dicts|
  {
    seq(|dicts|, i requires 0 <= i < |dicts| && "field" in dicts[i] && "direction" in dicts[i] =>
      SortInfo(dicts[i]["field"], dicts[i]["direction"]))
  }

  /** `to_sort_dict` loses nothing: the records can be read back from its dictionaries. */
  lemma SortDictRoundTrip(infos: seq<SortInfo>)
    ensures FromSortDict(ToSortDict(infos)) == infos
  {
  }
}
