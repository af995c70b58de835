/**
 * The result flattener: turns a final verification result into the rows of the
 * result table (`ResultRow.build(from:)` and its private helpers).
 */
module ResultRow {
  import opened Wrappers
  import opened Json
  import opened StringOrder
  import Decimal

  /** A row of the result table: a section header or a (possibly indented) key with an optional value. */
  datatype Row = Header(title: string) | KeyValue(key: string, value: Option<string>)

  /** One `(String, String?)` pair produced by `flatten`; the value is absent for a nested container. */
  datatype Leaf = Leaf(key: string, value: Option<string>)

  /** The indentation added per nesting level. */
  const IndentSyntax: string := "  "

  /**
   * The display text of a scalar: `"Null"` for null, `"true"`/`"false"` for booleans,
   * and the value's own text otherwise. Never absent.
   */
  function FormatValue(v: Value): (r: string)
    requires !IsContainer(v)
    ensures v.Null? ==> r == "Null"
    ensures v.Bool? ==> (r == "true" <==> v.boolean) && (r == "false" <==> !v.boolean)
    ensures v.Str? ==> r == v.str
    ensures v.Number? ==> r == v.text
  {
    match v
    case Null => "Null"
    case Bool(b) => if b then "true" else "false"
    case Number(t) => t
    case Str(s) => s
  }

  /** The display label of the array element at `index`: its decimal digits in brackets. */
  function IndexLabel(index: nat): (r: string)
    ensures |r| >= 3 && r[0] == '[' && r[|r| - 1] == ']'
    ensures forall j :: 1 <= j < |r| - 1 ==> Decimal.IsDigit(r[j])
    ensures |r| > 3 ==> r[1] != '0'
    ensures Decimal.ParseDigits(r[1..|r| - 1]) == index
  {
    var digits := Decimal.NatToString(index);
    Decimal.ParseNatToString(index);
    var r := "[" + digits + "]";
    assert r[1..|r| - 1] == digits;
    r
  }

  /** Distinct array positions get distinct labels. */
  lemma IndexLabelInjective(i: nat, j: nat)
    requires IndexLabel(i) == IndexLabel(j)
    ensures i == j
  {
    var a := IndexLabel(i);
    var b := IndexLabel(j);
    assert Decimal.NatToString(i) == a[1..|a| - 1];
    assert Decimal.NatToString(j) == b[1..|b| - 1];
    Decimal.NatToStringInjective(i, j);
  }

  /**
   * The rows `flatten(value, indent:)` returns. A bare scalar gives the single row
   * `("", formatted value)`; a container gives the rows of its children.
   */
  function Flatten(v: Value, indent: string): (r: seq<Leaf>)
    ensures IsContainer(v) ==> forall j :: 0 <= j < |r| ==> indent <= r[j].key
    ensures !IsContainer(v) ==> |r| == 1 && r[0].key == "" && r[0].value.Some?
    decreases v, 1, 0
  {
    match v
    case Object(m) => FlattenFields(m, SortedKeys(m.Keys), indent)
    case Array(a) => FlattenItems(a, 0, indent)
    case _ => [Leaf("", Some(FormatValue(v)))]
  }

  /**
   * The rows of one child shown under `key`: a container gives a row with no value
   * followed by its own rows one level deeper; a scalar gives one row with its value.
   */
  function Child(key: string, val: Value, indent: string): (r: seq<Leaf>)
    ensures |r| >= 1 && r[0].key == key
    ensures r[0].value.None? <==> IsContainer(val)
    ensures !IsContainer(val) ==> |r| == 1 && r[0].value == Some(FormatValue(val))
    ensures IsContainer(val) ==> r[1..] == Flatten(val, indent + IndentSyntax)
    ensures forall j :: 1 <= j < |r| ==> indent + IndentSyntax <= r[j].key
    decreases val, 2, 0
  {
    if IsContainer(val) then [Leaf(key, None)] + Flatten(val, indent + IndentSyntax)
    else [Leaf(key, Some(FormatValue(val)))]
  }

  /** The rows of the members of `m` named by `keys`, in the order of `keys`. */
  function FlattenFields(m: map<string, Value>, keys: seq<string>, indent: string): (r: seq<Leaf>)
    requires forall k :: k in keys ==> k in m
    ensures forall j :: 0 <= j < |r| ==> indent <= r[j].key
    decreases Object(m), 0, |keys|
  {
    if keys == [] then []
    else Child(indent + keys[0], m[keys[0]], indent) + FlattenFields(m, keys[1..], indent)
  }

  /** The rows of the elements of `a` from position `i` on, in index order. */
  function FlattenItems(a: seq<Value>, i: nat, indent: string): (r: seq<Leaf>)
    requires i <= |a|
    ensures forall j :: 0 <= j < |r| ==> indent <= r[j].key
    decreases Array(a), 0, |a| - i
  {
    if i == |a| then []
    else Child(indent + IndexLabel(i), a[i], indent) + FlattenItems(a, i + 1, indent)
  }

  /** The concatenation of a list of row lists. */
  function Concat(parts: seq<seq<Leaf>>): (r: seq<Leaf>)
    ensures parts == [] ==> r == []
  {
    if parts == [] then [] else parts[0] + Concat(parts[1..])
  }

  /** The rows of an object's children, one part per key in ascending key order. */
  function ObjectChildren(m: map<string, Value>, indent: string): (parts: seq<seq<Leaf>>)
  {
    var keys := SortedKeys(m.Keys);
    seq(|keys|, i requires 0 <= i < |keys| => Child(indent + keys[i], m[keys[i]], indent))
  }

  /** The rows of an array's children, one part per element in index order. */
  function ArrayChildren(a: seq<Value>, indent: string): (parts: seq<seq<Leaf>>)
  {
    seq(|a|, i requires 0 <= i < |a| => Child(indent + IndexLabel(i), a[i], indent))
  }

  lemma {:induction false} FlattenFieldsConcat(m: map<string, Value>, keys: seq<string>, indent: string)
    requires forall k :: k in keys ==> k in m
    ensures FlattenFields(m, keys, indent)
         == Concat(seq(|keys|, i requires 0 <= i < |keys| => Child(indent + keys[i], m[keys[i]], indent)))
    decreases |keys|
  {
    var parts := seq(|keys|, i requires 0 <= i < |keys| => Child(indent + keys[i], m[keys[i]], indent));
    if keys != [] {
      FlattenFieldsConcat(m, keys[1..], indent);
      assert parts[1..] == seq(|keys[1..]|, i requires 0 <= i < |keys[1..]| => Child(indent + keys[1..][i], m[keys[1..][i]], indent));
    }
  }

  lemma {:induction false} FlattenItemsConcat(a: seq<Value>, i: nat, indent: string)
    requires i <= |a|
    ensures FlattenItems(a, i, indent) == Concat(ArrayChildren(a, indent)[i..])
    decreases |a| - i
  {
    if i < |a| {
      FlattenItemsConcat(a, i + 1, indent);
      assert ArrayChildren(a, indent)[i..][1..] == ArrayChildren(a, indent)[i + 1..];
    }
  }

  /**
   * An object is shown child by child in ascending key order; the child under key `k`
   * is labelled `indent + k`.
   */
  lemma FlattenObject(m: map<string, Value>, indent: string)
    ensures Flatten(Object(m), indent) == Concat(ObjectChildren(m, indent))
  {
    FlattenFieldsConcat(m, SortedKeys(m.Keys), indent);
  }

  /**
   * An array is shown element by element in index order; the element at `i` is
   * labelled `indent + "[i]"`.
   */
  lemma FlattenArray(a: seq<Value>, indent: string)
    ensures Flatten(Array(a), indent) == Concat(ArrayChildren(a, indent))
  {
    FlattenItemsConcat(a, 0, indent);
    assert ArrayChildren(a, indent)[0..] == ArrayChildren(a, indent);
  }

  /** An empty object or array yields no rows at all. */
  lemma FlattenEmpty(indent: string)
    ensures Flatten(Object(map[]), indent) == []
    ensures Flatten(Array([]), indent) == []
  {
    assert SortedKeys({}) == [];
  }

  /** A bare scalar yields the single row with an empty key and its formatted value. */
  lemma FlattenScalar(v: Value, indent: string)
    requires !IsContainer(v)
    ensures Flatten(v, indent) == [Leaf("", Some(FormatValue(v)))]
  {
  }

  /** `rows` with `prefix` put in front of every key. */
  function Shift(prefix: string, rows: seq<Leaf>): (r: seq<Leaf>)
    ensures |r| == |rows|
    ensures forall j :: 0 <= j < |r| ==> r[j] == Leaf(prefix + rows[j].key, rows[j].value)
  {
    seq(|rows|, j requires 0 <= j < |rows| => Leaf(prefix + rows[j].key, rows[j].value))
  }

  lemma ShiftAppend(prefix: string, a: seq<Leaf>, b: seq<Leaf>)
    ensures Shift(prefix, a + b) == Shift(prefix, a) + Shift(prefix, b)
  {
  }

  /**
   * Indentation only prefixes keys: flattening a container at `p + q` is flattening it
   * at `q` with `p` put in front of every key, values unchanged.
   */
  lemma {:induction false} FlattenShift(v: Value, p: string, q: string)
    requires IsContainer(v)
    ensures Flatten(v, p + q) == Shift(p, Flatten(v, q))
    decreases v, 1, 0
  {
    match v
    case Object(m) => FlattenFieldsShift(m, SortedKeys(m.Keys), p, q);
    case Array(a) => FlattenItemsShift(a, 0, p, q);
  }

  lemma {:induction false} ChildShift(key: string, val: Value, p: string, q: string)
    ensures Child(p + key, val, p + q) == Shift(p, Child(key, val, q))
    decreases val, 2, 0
  {
    if IsContainer(val) {
      FlattenShift(val, p, q + IndentSyntax);
      assert p + q + IndentSyntax == p + (q + IndentSyntax);
      ShiftAppend(p, [Leaf(key, None)], Flatten(val, q + IndentSyntax));
    }
  }

  lemma {:induction false} FlattenFieldsShift(m: map<string, Value>, keys: seq<string>, p: string, q: string)
    requires forall k :: k in keys ==> k in m
    ensures FlattenFields(m, keys, p + q) == Shift(p, FlattenFields(m, keys, q))
    decreases Object(m), 0, |keys|
  {
    if keys != [] {
      ChildShift(q + keys[0], m[keys[0]], p, q);
      assert p + (q + keys[0]) == p + q + keys[0];
      FlattenFieldsShift(m, keys[1..], p, q);
      ShiftAppend(p, Child(q + keys[0], m[keys[0]], q), FlattenFields(m, keys[1..], q));
    }
  }

  lemma {:induction false} FlattenItemsShift(a: seq<Value>, i: nat, p: string, q: string)
    requires i <= |a|
    ensures FlattenItems(a, i, p + q) == Shift(p, FlattenItems(a, i, q))
    decreases Array(a), 0, |a| - i
  {
    if i < |a| {
      ChildShift(q + IndexLabel(i), a[i], p, q);
      assert p + (q + IndexLabel(i)) == p + q + IndexLabel(i);
      FlattenItemsShift(a, i + 1, p, q);
      ShiftAppend(p, Child(q + IndexLabel(i), a[i], q), FlattenItems(a, i + 1, q));
    }
  }

  /** Leaves as key/value rows of the table. */
  function AsRows(leaves: seq<Leaf>): (r: seq<Row>)
    ensures |r| == |leaves|
    ensures forall j :: 0 <= j < |r| ==> r[j] == KeyValue(leaves[j].key, leaves[j].value)
  {
    seq(|leaves|, j requires 0 <= j < |leaves| => KeyValue(leaves[j].key, leaves[j].value))
  }

  /** The table for the members of `json` named by `keys`, one section per key in order. */
  function BuildFrom(json: map<string, Value>, keys: seq<string>): (rows: seq<Row>)
    requires forall k :: k in keys ==> k in json
    ensures |rows| >= |keys|
    ensures rows != [] ==> rows[0].Header?
    ensures rows == [] <==> keys == []
    decreases |keys|
  {
    if keys == [] then []
    else [Header(keys[0])] + AsRows(Flatten(json[keys[0]], "")) + BuildFrom(json, keys[1..])
  }

  /** The titles of the header rows, in order. */
  function Titles(rows: seq<Row>): (titles: seq<string>)
  {
    if rows == [] then []
    else (if rows[0].Header? then [rows[0].title] else []) + Titles(rows[1..])
  }

  lemma {:induction false} TitlesAppend(a: seq<Row>, b: seq<Row>)
    ensures Titles(a + b) == Titles(a) + Titles(b)
    decreases |a|
  {
    if a != [] {
      assert (a + b)[0] == a[0];
      assert (a + b)[1..] == a[1..] + b;
      TitlesAppend(a[1..], b);
      var h := if a[0].Header? then [a[0].title] else [];
      assert Titles(a) == h + Titles(a[1..]);
      assert h + (Titles(a[1..]) + Titles(b)) == h + Titles(a[1..]) + Titles(b);
    } else {
      assert a + b == b;
    }
  }

  lemma {:induction false} TitlesOfLeaves(leaves: seq<Leaf>)
    ensures Titles(AsRows(leaves)) == []
    decreases |leaves|
  {
    if leaves != [] {
      assert AsRows(leaves)[1..] == AsRows(leaves[1..]);
      TitlesOfLeaves(leaves[1..]);
    }
  }

  lemma {:induction false} BuildFromTitles(json: map<string, Value>, keys: seq<string>)
    requires forall k :: k in keys ==> k in json
    ensures Titles(BuildFrom(json, keys)) == keys
    decreases |keys|
  {
    if keys != [] {
      var head := [Header(keys[0])] + AsRows(Flatten(json[keys[0]], ""));
      TitlesAppend(head, BuildFrom(json, keys[1..]));
      TitlesAppend([Header(keys[0])], AsRows(Flatten(json[keys[0]], "")));
      TitlesOfLeaves(Flatten(json[keys[0]], ""));
      BuildFromTitles(json, keys[1..]);
      assert Titles([Header(keys[0])]) == [keys[0]];
    }
  }

  /** A header together with the key/value rows that follow it up to the next header. */
  datatype Section = Section(title: string, leaves: seq<Leaf>)

  /** The key/value rows at the front of `rows`, up to the first header, as leaves. */
  function LeadingLeaves(rows: seq<Row>): (r: seq<Leaf>)
    ensures |r| <= |rows|
  {
    if rows == [] || rows[0].Header? then []
    else [Leaf(rows[0].key, rows[0].value)] + LeadingLeaves(rows[1..])
  }

  /** Reads a table back as its sections; key/value rows before the first header belong to none. */
  function Sections(rows: seq<Row>): (sections: seq<Section>)
    decreases |rows|
  {
    if rows == [] then []
    else if rows[0].KeyValue? then Sections(rows[1..])
    else
      var body := LeadingLeaves(rows[1..]);
      [Section(rows[0].title, body)] + Sections(rows[1 + |body|..])
  }

  lemma {:induction false} LeadingLeavesOfRows(leaves: seq<Leaf>, rest: seq<Row>)
    requires rest == [] || rest[0].Header?
    ensures LeadingLeaves(AsRows(leaves) + rest) == leaves
    decreases |leaves|
  {
    if leaves != [] {
      assert (AsRows(leaves) + rest)[1..] == AsRows(leaves[1..]) + rest;
      LeadingLeavesOfRows(leaves[1..], rest);
      assert leaves == [leaves[0]] + leaves[1..];
    } else {
      assert AsRows(leaves) + rest == rest;
    }
  }

  /** For each key in order, the section its value should occupy. */
  function KeySections(json: map<string, Value>, keys: seq<string>): (r: seq<Section>)
    requires forall k :: k in keys ==> k in json
  {
    seq(|keys|, i requires 0 <= i < |keys| => Section(keys[i], Flatten(json[keys[i]], "")))
  }

  /** A header, its rows and then a further header or the end read back as one section. */
  lemma SectionsCons(title: string, leaves: seq<Leaf>, rest: seq<Row>)
    requires rest == [] || rest[0].Header?
    ensures Sections([Header(title)] + AsRows(leaves) + rest) == [Section(title, leaves)] + Sections(rest)
  {
    var rows := [Header(title)] + AsRows(leaves) + rest;
    assert rows[1..] == AsRows(leaves) + rest;
    LeadingLeavesOfRows(leaves, rest);
    assert rows[1 + |leaves|..] == rest;
  }

  lemma KeySectionsCons(json: map<string, Value>, keys: seq<string>)
    requires forall k :: k in keys ==> k in json
    requires keys != []
    ensures KeySections(json, keys) == [Section(keys[0], Flatten(json[keys[0]], ""))] + KeySections(json, keys[1..])
  {
    var expected := KeySections(json, keys);
    assert expected[1..] == KeySections(json, keys[1..]);
    assert expected == [expected[0]] + expected[1..];
  }

  lemma {:induction false} BuildFromSections(json: map<string, Value>, keys: seq<string>)
    requires forall k :: k in keys ==> k in json
    ensures Sections(BuildFrom(json, keys)) == KeySections(json, keys)
    decreases |keys|
  {
    if keys != [] {
      SectionsCons(keys[0], Flatten(json[keys[0]], ""), BuildFrom(json, keys[1..]));
      BuildFromSections(json, keys[1..]);
      KeySectionsCons(json, keys);
    }
  }

  /**
   * `ResultRow.build(from:)`: for each top-level key in ascending order, a header with
   * the key as title followed by the key/value rows of the key's value.
   */
  function Build(json: map<string, Value>): (rows: seq<Row>)
    ensures |rows| >= |json|
    ensures rows == [] <==> |json| == 0
    ensures rows != [] ==> rows[0].Header?
  {
    BuildFrom(json, SortedKeys(json.Keys))
  }

  /**
   * Each header is followed by exactly the rows of its value's flattening, in order,
   * and nothing else comes before the next header.
   */
  lemma BuildSections(json: map<string, Value>)
    ensures Sections(Build(json)) == KeySections(json, SortedKeys(json.Keys))
  {
    BuildFromSections(json, SortedKeys(json.Keys));
  }

  /**
   * The headers are exactly the top-level keys in sorted order: one per key, strictly
   * ascending (by the contract of `SortedKeys`), so none repeats.
   */
  lemma BuildHeaders(json: map<string, Value>)
    ensures Titles(Build(json)) == SortedKeys(json.Keys)
  {
    BuildFromTitles(json, SortedKeys(json.Keys));
  }

  lemma SortedPair(x: string, y: string)
    requires Less(x, y)
    ensures SortedKeys({x, y}) == [x, y]
  {
    SortedKeysCharacterized({x, y}, [x, y]);
  }

  lemma SortedSingle(x: string)
    ensures SortedKeys({x}) == [x]
  {
    SortedKeysCharacterized({x}, [x]);
  }

  /** The table of a document with a single top-level key. */
  lemma BuildOne(json: map<string, Value>, x: string)
    requires json.Keys == {x}
    ensures Build(json) == [Header(x)] + AsRows(Flatten(json[x], ""))
  {
    SortedSingle(x);
    assert SortedKeys(json.Keys) == [x];
    assert [x][1..] == [];
  }

  /** The table of a document with two top-level keys `x < y`. */
  lemma BuildTwo(json: map<string, Value>, x: string, y: string)
    requires json.Keys == {x, y} && Less(x, y)
    ensures Build(json) == [Header(x)] + AsRows(Flatten(json[x], "")) + [Header(y)] + AsRows(Flatten(json[y], ""))
  {
    SortedPair(x, y);
    assert SortedKeys(json.Keys) == [x, y];
    assert [x, y][1..] == [y] && [y][1..] == [];
    var ry := BuildFrom(json, [y]);
    assert ry == [Header(y)] + AsRows(Flatten(json[y], ""));
    assert BuildFrom(json, [x, y]) == [Header(x)] + AsRows(Flatten(json[x], "")) + ry;
  }

  /** An object with two members `x < y` flattens to the rows of its two children, in that order. */
  lemma FlattenTwoFields(m: map<string, Value>, x: string, y: string)
    requires m.Keys == {x, y} && Less(x, y)
    ensures Flatten(Object(m), "") == Child(x, m[x], "") + Child(y, m[y], "")
  {
    SortedPair(x, y);
    assert SortedKeys(m.Keys) == [x, y];
    assert "" + x == x && "" + y == y;
    assert [x, y][1..] == [y] && [y][1..] == [];
    assert FlattenFields(m, [y], "") == Child(y, m[y], "");
  }

  lemma NestedObjectRows()
    ensures Flatten(Object(map["z" := Bool(true), "y" := Null]), "")
         == [Leaf("y", Some("Null")), Leaf("z", Some("true"))]
  {
    var inner := map["z" := Bool(true), "y" := Null];
    assert inner.Keys == {"y", "z"};
    assert inner["y"] == Null && inner["z"] == Bool(true);
    FlattenTwoFields(inner, "y", "z");
    assert Child("y", Null, "") == [Leaf("y", Some("Null"))];
    assert Child("z", Bool(true), "") == [Leaf("z", Some("true"))];
  }

  lemma NestedObjectSections()
    ensures Build(map["b" := Number("1"), "a" := Object(map["z" := Bool(true), "y" := Null])])
         == [Header("a")] + AsRows(Flatten(Object(map["z" := Bool(true), "y" := Null]), ""))
          + [Header("b")] + AsRows(Flatten(Number("1"), ""))
  {
    var json := map["b" := Number("1"), "a" := Object(map["z" := Bool(true), "y" := Null])];
    assert json.Keys == {"a", "b"};
    assert Less("a", "b");
    BuildTwo(json, "a", "b");
  }

  lemma AsRowsPair(l1: Leaf, l2: Leaf)
    ensures AsRows([l1, l2]) == [KeyValue(l1.key, l1.value), KeyValue(l2.key, l2.value)]
  {
  }

  /** Keys are sorted at every level and scalars are formatted: `{"b": 1, "a": {"z": true, "y": null}}`. */
  lemma BuildNestedObjectExample()
    ensures Build(map["b" := Number("1"), "a" := Object(map["z" := Bool(true), "y" := Null])])
         == [Header("a"), KeyValue("y", Some("Null")), KeyValue("z", Some("true")),
             Header("b"), KeyValue("", Some("1"))]
  {
    NestedObjectSections();
    NestedObjectRows();
    var y := Leaf("y", Some("Null"));
    var z := Leaf("z", Some("true"));
    AsRowsPair(y, z);
    var first := AsRows([y, z]);
    var second := AsRows([Leaf("", Some("1"))]);
    assert second == [KeyValue("", Some("1"))];
    assert [Header("a")] + first + [Header("b")] + second
        == [Header("a"), KeyValue("y", Some("Null")), KeyValue("z", Some("true")),
            Header("b"), KeyValue("", Some("1"))];
  }

  lemma SingleMemberRows()
    ensures Flatten(Object(map["k" := Str("v")]), IndentSyntax) == [Leaf("  k", Some("v"))]
  {
    var obj := map["k" := Str("v")];
    assert obj.Keys == {"k"};
    SortedSingle("k");
    assert IndentSyntax + "k" == "  k" && ["k"][1..] == [];
  }

  lemma IndexLabelsExample()
    ensures "" + IndexLabel(0) == "[0]" && "" + IndexLabel(1) == "[1]"
  {
  }

  lemma ArrayTailRows()
    ensures FlattenItems([Number("1"), Object(map["k" := Str("v")])], 1, "")
         == [Leaf("[1]", None), Leaf("  k", Some("v"))]
  {
    var items := [Number("1"), Object(map["k" := Str("v")])];
    SingleMemberRows();
    IndexLabelsExample();
    assert "" + IndentSyntax == IndentSyntax;
    assert FlattenItems(items, 2, "") == [];
    assert Child("[1]", items[1], "") == [Leaf("[1]", None), Leaf("  k", Some("v"))];
  }

  lemma ArrayRows()
    ensures Flatten(Array([Number("1"), Object(map["k" := Str("v")])]), "")
         == [Leaf("[0]", Some("1")), Leaf("[1]", None), Leaf("  k", Some("v"))]
  {
    var items := [Number("1"), Object(map["k" := Str("v")])];
    ArrayTailRows();
    IndexLabelsExample();
    assert Child("[0]", items[0], "") == [Leaf("[0]", Some("1"))];
  }

  /** Array elements are labelled by index and nested containers indented: `{"list": [1, {"k": "v"}]}`. */
  lemma BuildArrayExample()
    ensures Build(map["list" := Array([Number("1"), Object(map["k" := Str("v")])])])
         == [Header("list"), KeyValue("[0]", Some("1")), KeyValue("[1]", None), KeyValue("  k", Some("v"))]
  {
    var json := map["list" := Array([Number("1"), Object(map["k" := Str("v")])])];
    assert json.Keys == {"list"};
    BuildOne(json, "list");
    ArrayRows();
    assert AsRows([Leaf("[0]", Some("1")), Leaf("[1]", None), Leaf("  k", Some("v"))])
        == [KeyValue("[0]", Some("1")), KeyValue("[1]", None), KeyValue("  k", Some("v"))];
  }
}
