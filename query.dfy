/**
 * buildQuery: an options struct becomes URL query parameters.
 *
 * The Go code walks the struct by reflection. Here a struct is given by its
 * descriptor: the ordered list of its fields, each with its Go name, the text
 * of its `url:"..."` tag ("" when it has none), whether it is exported, and its
 * value. Each Add call on the url.Values is recorded in order as a
 * (key, value) pair. url.Values.Encode emits keys in sorted order, and each
 * key's values in the order they were added. That is a stable sort by key of
 * the recorded pairs. Percent-escaping is a parameter of Render.
 */
module Query {
  import opened Wrappers
  import Text

  datatype FieldValue = Str(s: string) | Int(i: int) | Strs(items: seq<string>)

  datatype Field = Field(name: string, tag: string, exported: bool, value: FieldValue)

  /** What reflect.ValueOf(options) gives, after following one pointer. */
  datatype Options = NotAStruct | Struct(fields: seq<Field>)

  type Pair = (string, string)

  /**
   * reflect.Value.IsZero: the empty string, the int 0, the nil slice. A slice
   * is given by its elements, and an empty one counts as zero. A non-nil empty
   * slice would count as non-zero in Go, but it adds no entries either.
   */
  predicate IsZero(v: FieldValue)
  {
    match v
    case Str(s) => s == ""
    case Int(i) => i == 0
    case Strs(items) => items == []
  }

  /** The index of the first comma of s at or after i, or |s| when there is none. */
  function CommaIndex(s: string, i: nat): nat
    requires i <= |s|
    decreases |s| - i
  {
    if i == |s| then i
    else if s[i] == ',' then i
    else CommaIndex(s, i + 1)
  }

  /** strings.Split(s, ",")[0]: the text before the first comma, or all of s. */
  function FirstSegment(s: string): string
  {
    var n := CommaIndex(s, 0);
    assert n <= |s| by { CommaIndexBounds(s, 0); }
    s[..n]
  }

  /** The parameter name: the tag up to its first comma, or the field name when untagged. */
  function Key(f: Field): string
  {
    FirstSegment(if f.tag == "" then f.name else f.tag)
  }

  /** fmt.Sprint of the value, one string per slice element. */
  function Rendered(v: FieldValue): seq<string>
  {
    match v
    case Str(s) => [s]
    case Int(i) => [Text.IntToString(i)]
    case Strs(items) => items
  }

  /** Whether the field reaches the query at all. */
  predicate Emits(f: Field) { f.exported && !IsZero(f.value) }

  /** The values a field contributes, in order. */
  function Emitted(f: Field): seq<string>
  {
    if Emits(f) then Rendered(f.value) else []
  }

  function Tagged(k: string, values: seq<string>): (r: seq<Pair>)
    ensures |r| == |values|
    ensures forall i :: 0 <= i < |r| ==> r[i] == (k, values[i])
  {
    seq(|values|, i requires 0 <= i < |values| => (k, values[i]))
  }

  /** The Add calls one field makes. */
  function FieldEntries(f: Field): seq<Pair>
  {
    Tagged(Key(f), Emitted(f))
  }

  /** The Add calls for a list of fields, in field order. */
  function Entries(fields: seq<Field>): seq<Pair>
  {
    if fields == [] then []
    else Entries(fields[..|fields| - 1]) + FieldEntries(fields[|fields| - 1])
  }

  // ---------------------------------------------------------------------------
  // url.Values.Encode, on the pair level

  /** url.Values[k]: the values recorded for key k, in order. */
  function ValuesFor(k: string, q: seq<Pair>): seq<string>
  {
    if q == [] then []
    else (if q[0].0 == k then [q[0].1] else []) + ValuesFor(k, q[1..])
  }

  predicate SortedByKey(q: seq<Pair>)
  {
    forall i, j :: 0 <= i < j < |q| ==> Text.NotAfter(q[i].0, q[j].0)
  }

  /** Place p before the first pair whose key is not before p's key. */
  function Insert(p: Pair, q: seq<Pair>): seq<Pair>
  {
    if q == [] || !Text.Less(q[0].0, p.0) then [p] + q
    else [q[0]] + Insert(p, q[1..])
  }

  function SortByKey(q: seq<Pair>): seq<Pair>
  {
    if q == [] then [] else Insert(q[0], SortByKey(q[1..]))
  }

  /** url.Values.Encode of the values built by the given Add calls, before escaping. */
  function Encode(added: seq<Pair>): seq<Pair>
  {
    SortByKey(added)
  }

  /** The query buildQuery produces, as (key, value) pairs in output order. */
  function EncodedQuery(o: Options): seq<Pair>
  {
    match o
    case NotAStruct => []
    case Struct(fields) => Encode(Entries(fields))
  }

  /**
   * The escaped query string: key=value pieces joined by '&'. escape stands for
   * url.QueryEscape.
   */
  function Render(q: seq<Pair>, escape: string -> string): (r: string)
    ensures r == "" <==> q == []
  {
    if q == [] then ""
    else
      var last := escape(q[|q| - 1].0) + "=" + escape(q[|q| - 1].1);
      if |q| == 1 then last else Render(q[..|q| - 1], escape) + "&" + last
  }

  // ---------------------------------------------------------------------------
  // buildQuery

  /** The slice case of buildQuery: one Add per element, in element order. */
  method AddEach(added: seq<Pair>, tag: string, items: seq<string>) returns (r: seq<Pair>)
    ensures r == added + Tagged(tag, items)
  {
    r := added;
    var j := 0;
    while j < |items|
      invariant 0 <= j <= |items|
      invariant r == added + Tagged(tag, items[..j])
    {
      assert items[..j + 1] == items[..j] + [items[j]];
      r := r + [(tag, items[j])];
      j := j + 1;
    }
    assert items[..j] == items;
  }

  method BuildQuery(options: Options) returns (q: seq<Pair>)
    ensures q == EncodedQuery(options)
  {
    if options.NotAStruct? {
      return [];
    }
    var fields := options.fields;
    var added: seq<Pair> := [];
    var i := 0;
    while i < |fields|
      invariant 0 <= i <= |fields|
      invariant added == Entries(fields[..i])
    {
      var field := fields[i];
      assert fields[..i + 1][..i] == fields[..i];
      if !IsZero(field.value) && field.exported {
        var tag := field.tag;
        if tag == "" {
          tag := field.name;
        }
        tag := FirstSegment(tag);
        match field.value
        case Strs(items) =>
          added := AddEach(added, tag, items);
        case Str(s) =>
          added := added + [(tag, s)];
        case Int(n) =>
          added := added + [(tag, Text.IntToString(n))];
      }
      i := i + 1;
    }
    assert fields[..i] == fields;
    q := Encode(added);
  }

  // ---------------------------------------------------------------------------
  // What Encode keeps and what it orders

  lemma {:induction false} ValuesForAppend(k: string, a: seq<Pair>, b: seq<Pair>)
    ensures ValuesFor(k, a + b) == ValuesFor(k, a) + ValuesFor(k, b)
  {
    if a != [] {
      assert (a + b)[1..] == a[1..] + b;
      ValuesForAppend(k, a[1..], b);
    } else {
      assert a + b == b;
    }
  }

  lemma {:induction false} InsertKeepsValues(k: string, p: Pair, q: seq<Pair>)
    ensures ValuesFor(k, Insert(p, q)) == ValuesFor(k, [p] + q)
  {
    if q != [] && Text.Less(q[0].0, p.0) {
      InsertKeepsValues(k, p, q[1..]);
      Text.LessIrreflexive(p.0);
      assert ([p] + q)[1..] == q;
      assert ([p] + q[1..])[1..] == q[1..];
      assert ([q[0]] + Insert(p, q[1..]))[1..] == Insert(p, q[1..]);
    }
  }

  lemma {:induction false} InsertKeepsMultiset(p: Pair, q: seq<Pair>)
    ensures multiset(Insert(p, q)) == multiset([p] + q)
  {
    if q != [] && Text.Less(q[0].0, p.0) {
      InsertKeepsMultiset(p, q[1..]);
      assert q == [q[0]] + q[1..];
    }
  }

  lemma {:induction false} InsertSorted(p: Pair, q: seq<Pair>)
    requires SortedByKey(q)
    ensures SortedByKey(Insert(p, q))
  {
    if q == [] {
    } else if !Text.Less(q[0].0, p.0) {
      forall j | 0 <= j < |q| ensures Text.NotAfter(p.0, q[j].0) {
        if j > 0 { Text.NotAfterTransitive(p.0, q[0].0, q[j].0); }
      }
    } else {
      var rest := Insert(p, q[1..]);
      InsertSorted(p, q[1..]);
      InsertKeepsMultiset(p, q[1..]);
      Text.LessAsymmetric(q[0].0, p.0);
      forall j | 0 <= j < |rest| ensures Text.NotAfter(q[0].0, rest[j].0) {
        assert rest[j] in multiset([p] + q[1..]);
        if rest[j] != p {
          assert rest[j] in q[1..];
          var m :| 0 <= m < |q[1..]| && q[1..][m] == rest[j];
          assert q[m + 1] == rest[j];
        }
      }
    }
  }

  /** The encoded pairs come out with their keys in sorted order. */
  lemma {:induction false} EncodeSorted(added: seq<Pair>)
    ensures SortedByKey(Encode(added))
  {
    if added != [] {
      EncodeSorted(added[1..]);
      InsertSorted(added[0], SortByKey(added[1..]));
    }
  }

  /** Every key keeps exactly its added values, in the order they were added. */
  lemma {:induction false} EncodeKeepsValues(k: string, added: seq<Pair>)
    ensures ValuesFor(k, Encode(added)) == ValuesFor(k, added)
  {
    if added != [] {
      EncodeKeepsValues(k, added[1..]);
      InsertKeepsValues(k, added[0], SortByKey(added[1..]));
      ValuesForAppend(k, [added[0]], SortByKey(added[1..]));
      ValuesForAppend(k, [added[0]], added[1..]);
      assert [added[0]] + added[1..] == added;
    }
  }

  /** Encoding drops and invents nothing: the output is a permutation of the Add calls. */
  lemma {:induction false} EncodeIsPermutation(added: seq<Pair>)
    ensures multiset(Encode(added)) == multiset(added)
  {
    if added != [] {
      EncodeIsPermutation(added[1..]);
      InsertKeepsMultiset(added[0], SortByKey(added[1..]));
      assert added == [added[0]] + added[1..];
    }
  }

  // ---------------------------------------------------------------------------
  // What a struct's fields put in the query

  lemma {:induction false} EntriesEmptyIff(fields: seq<Field>)
    ensures Entries(fields) == [] <==> forall i :: 0 <= i < |fields| ==> !Emits(fields[i])
  {
    if fields != [] {
      var init := fields[..|fields| - 1];
      EntriesEmptyIff(init);
      var last := fields[|fields| - 1];
      if Emits(last) {
        match last.value
        case Str(_) =>
        case Int(_) =>
        case Strs(items) => assert items != [];
      }
      forall i | 0 <= i < |init| ensures init[i] == fields[i] { }
    }
  }

  /**
   * The query is empty exactly when no field is both exported and non-zero.
   * For nil and non-struct input it is always empty.
   */
  lemma EncodedQueryEmptyIff(o: Options)
    ensures EncodedQuery(o) == [] <==>
      (o.NotAStruct? || forall i :: 0 <= i < |o.fields| ==> !Emits(o.fields[i]))
  {
    if o.Struct? {
      EntriesEmptyIff(o.fields);
      EncodeIsPermutation(Entries(o.fields));
      if Entries(o.fields) != [] {
        assert Entries(o.fields)[0] in multiset(Entries(o.fields));
      }
    }
  }

  lemma {:induction false} ValuesForTagged(k: string, key: string, values: seq<string>)
    ensures ValuesFor(k, Tagged(key, values)) == if k == key then values else []
  {
    if values != [] {
      assert Tagged(key, values)[1..] == Tagged(key, values[1..]);
      ValuesForTagged(k, key, values[1..]);
      assert values == [values[0]] + values[1..];
    }
  }

  /**
   * When exactly one field has the parameter name k, the query's values for k
   * are that field's values, in element order.
   */
  lemma {:induction false} ValuesForUniqueKey(k: string, fields: seq<Field>, j: int)
    requires 0 <= j < |fields| && Key(fields[j]) == k
    requires forall i :: 0 <= i < |fields| && i != j ==> Key(fields[i]) != k
    ensures ValuesFor(k, Encode(Entries(fields))) == Emitted(fields[j])
  {
    EncodeKeepsValues(k, Entries(fields));
    ValuesForInEntries(k, fields, j);
  }

  /** The parameter names of the fields, in field order. */
  function Keys(fields: seq<Field>): (ks: seq<string>)
    ensures |ks| == |fields|
    ensures forall i :: 0 <= i < |fields| ==> ks[i] == Key(fields[i])
  {
    seq(|fields|, i requires 0 <= i < |fields| => Key(fields[i]))
  }

  predicate Distinct(ks: seq<string>)
  {
    forall i, j :: 0 <= i < j < |ks| ==> ks[i] != ks[j]
  }

  /** With pairwise different parameter names, each field's values come back under its own name. */
  lemma ValuesForDistinctKeys(fields: seq<Field>, j: int)
    requires 0 <= j < |fields| && Distinct(Keys(fields))
    ensures ValuesFor(Keys(fields)[j], Encode(Entries(fields))) == Emitted(fields[j])
  {
    var ks := Keys(fields);
    forall i | 0 <= i < |fields| && i != j ensures Key(fields[i]) != ks[j] {
      assert ks[i] != ks[j] by {
        if i < j { assert ks[i] != ks[j]; } else { assert ks[j] != ks[i]; }
      }
    }
    ValuesForUniqueKey(ks[j], fields, j);
  }

  lemma {:induction false} ValuesForInEntries(k: string, fields: seq<Field>, j: int)
    requires 0 <= j < |fields| && Key(fields[j]) == k
    requires forall i :: 0 <= i < |fields| && i != j ==> Key(fields[i]) != k
    ensures ValuesFor(k, Entries(fields)) == Emitted(fields[j])
    decreases |fields|
  {
    var n := |fields| - 1;
    var init, last := fields[..n], fields[n];
    var before := ValuesFor(k, Entries(init));
    var here := ValuesFor(k, FieldEntries(last));
    assert ValuesFor(k, Entries(fields)) == before + here by {
      assert Entries(fields) == Entries(init) + FieldEntries(last);
      ValuesForAppend(k, Entries(init), FieldEntries(last));
    }
    assert here == if Key(last) == k then Emitted(last) else [] by {
      ValuesForTagged(k, Key(last), Emitted(last));
    }
    if j < n {
      assert before == Emitted(fields[j]) by {
        assert init[j] == fields[j];
        forall i | 0 <= i < |init| && i != j ensures Key(init[i]) != k {
          assert init[i] == fields[i];
        }
        ValuesForInEntries(k, init, j);
      }
    } else {
      assert before == [] by {
        forall i | 0 <= i < |init| ensures Key(init[i]) != k {
          assert init[i] == fields[i];
        }
        NoValuesForAbsentKey(k, init);
      }
    }
  }

  lemma {:induction false} NoValuesForAbsentKey(k: string, fields: seq<Field>)
    requires forall i :: 0 <= i < |fields| ==> Key(fields[i]) != k
    ensures ValuesFor(k, Entries(fields)) == []
  {
    if fields != [] {
      var n := |fields| - 1;
      NoValuesForAbsentKey(k, fields[..n]);
      ValuesForAppend(k, Entries(fields[..n]), FieldEntries(fields[n]));
      ValuesForTagged(k, Key(fields[n]), Emitted(fields[n]));
    }
  }

  lemma {:induction false} CommaIndexBounds(s: string, i: nat)
    requires i <= |s|
    ensures i <= CommaIndex(s, i) <= |s|
    decreases |s| - i
  {
    if i < |s| && s[i] != ',' {
      CommaIndexBounds(s, i + 1);
    }
  }

  /** CommaIndex finds the first comma from i on: none before it, a comma at it unless it is the end. */
  lemma {:induction false} CommaIndexIsFirst(s: string, i: nat)
    requires i <= |s|
    ensures var n := CommaIndex(s, i);
      i <= n <= |s| && (n == |s| || s[n] == ',') && forall k :: i <= k < n ==> s[k] != ','
    decreases |s| - i
  {
    if i < |s| && s[i] != ',' {
      CommaIndexIsFirst(s, i + 1);
    }
  }

  /** The first segment is a prefix free of commas that ends at a comma or at the end of the text. */
  lemma FirstSegmentShape(s: string)
    ensures |FirstSegment(s)| <= |s| && FirstSegment(s) == s[..|FirstSegment(s)|]
    ensures ',' !in FirstSegment(s)
    ensures FirstSegment(s) == s || s[|FirstSegment(s)|] == ','
  {
    CommaIndexIsFirst(s, 0);
  }

  /**
   * The key is a comma-free prefix of the tag (of the field name when the tag
   * is empty) that runs to the first comma or to the end.
   */
  lemma KeyShape(f: Field)
    ensures var source := if f.tag == "" then f.name else f.tag;
      |Key(f)| <= |source| && Key(f) == source[..|Key(f)|] && ',' !in Key(f) &&
      (Key(f) == source || source[|Key(f)|] == ',')
  {
    FirstSegmentShape(if f.tag == "" then f.name else f.tag);
  }

  /** The key is the text before the first comma of the tag. */
  lemma {:induction false} FirstSegmentAtComma(s: string, n: int)
    requires 0 <= n < |s| && s[n] == ','
    requires forall i :: 0 <= i < n ==> s[i] != ','
    ensures FirstSegment(s) == s[..n]
  {
    CommaIndexIsFirst(s, 0);
    var m := CommaIndex(s, 0);
    assert m == n;
  }

  /** Without a comma the whole text is the key. */
  lemma {:induction false} FirstSegmentWithoutComma(s: string)
    requires forall i :: 0 <= i < |s| ==> s[i] != ','
    ensures FirstSegment(s) == s
  {
    CommaIndexIsFirst(s, 0);
    assert s[..|s|] == s;
  }

  /** A tag `name` or `name,options` gives the key `name`. */
  lemma KeyOfTag(f: Field, name: string, options: string)
    requires f.tag == name + options && name != "" && ',' !in name
    requires options == "" || options[0] == ','
    ensures Key(f) == name
  {
    if options == "" {
      assert name + options == name;
      FirstSegmentWithoutComma(name);
    } else {
      FirstSegmentAtComma(name + options, |name|);
      assert (name + options)[..|name|] == name;
    }
  }
}
