/**
 * The search and sort engine shared by the client table and the roles table:
 * `filterData`, `sortData` and the header icon choice of `Th`.
 *
 * A record is a map from field name to the `String(..)` rendering of the field's value.
 * A field the record lacks renders as "undefined", as `String(undefined)` does.
 * `localeCompare` is a comparator parameter `cmp`; the ordering theorems assume it is
 * consistent in the sense of `Array.prototype.sort`.
 */
module TableEngine {
  import opened Wrappers
  import opened JsText
  import opened StableSort

  type Record = map<string, string>

  /** `String(item[key])`. */
  function FieldText(r: Record, key: string): string
  {
    if key in r then r[key] else "undefined"
  }

  /** The normalised query: `search.toLowerCase().trim()`. */
  function Query(search: string): (q: string)
    ensures |q| <= |search|
  {
    Trim(Lower(search))
  }

  /** The normalised query has no upper-case letter and neither starts nor ends with white space. */
  lemma QuerySpec(search: string)
    ensures forall i :: 0 <= i < |Query(search)| ==> !('A' <= Query(search)[i] <= 'Z')
    ensures Query(search) == [] || (!IsWhitespace(Query(search)[0]) && !IsWhitespace(Query(search)[|Query(search)| - 1]))
  {
    LowerSpec(search);
    TrimSpec(Lower(search));
  }

  /** Some key of `keys` holds a value whose lower-cased text contains `query`. */
  predicate Matches(keys: set<string>, item: Record, query: string)
    ensures Matches(keys, item, query) ==> keys != {}
  {
    exists k | k in keys :: Contains(Lower(FieldText(item, k)), query)
  }

  /**
   * A searched field the record lacks is read as the text "undefined": such a record is
   * kept exactly when "undefined" contains the query, so "def" or "fin" keeps it.
   */
  lemma MissingFieldReadsUndefined(item: Record, k: string, q: string)
    requires k !in item
    ensures Matches({k}, item, q) <==> Contains("undefined", q)
    ensures Matches({k}, item, "def")
  {
    assert FieldText(item, k) == "undefined";
    assert Lower("undefined") == "undefined";
    assert "def" <= "undefined"[2..];
    ContainsIff("undefined", "def");
  }

  /** `a` is `b` with some elements left out, the rest in `b`'s order. */
  ghost predicate IsSubsequence<T>(a: seq<T>, b: seq<T>)
    decreases |b|
  {
    a == [] || (b != [] && ((a[0] == b[0] && IsSubsequence(a[1..], b[1..])) || IsSubsequence(a, b[1..])))
  }

  /** `data.filter(item => keys.some(..))`: keeps the matching records, in input order (see `FilterBySpec`). */
  function FilterBy(data: seq<Record>, keys: set<string>, query: string): (r: seq<Record>)
    ensures |r| <= |data|
  {
    if data == [] then []
    else if Matches(keys, data[0], query) then [data[0]] + FilterBy(data[1..], keys, query)
    else FilterBy(data[1..], keys, query)
  }

  /**
   * The filter keeps, in input order, every matching record as often as it occurs and
   * no record that does not match.
   */
  lemma {:induction false} FilterBySpec(data: seq<Record>, keys: set<string>, query: string)
    ensures IsSubsequence(FilterBy(data, keys, query), data)
    ensures multiset(FilterBy(data, keys, query)) <= multiset(data)
    ensures forall x :: x in FilterBy(data, keys, query) ==> Matches(keys, x, query)
    ensures forall x :: (multiset(FilterBy(data, keys, query))[x] ==
      if Matches(keys, x, query) then multiset(data)[x] else 0)
  {
    if data != [] {
      var t := FilterBy(data[1..], keys, query);
      FilterBySpec(data[1..], keys, query);
      assert data == [data[0]] + data[1..];
      if Matches(keys, data[0], query) {
        assert ([data[0]] + t)[0] == data[0] && ([data[0]] + t)[1..] == t;
      }
    }
  }

  /** Every kept record is a record of the input. */
  lemma {:induction false} FilterByMembers(data: seq<Record>, keys: set<string>, query: string)
    ensures forall x :: x in FilterBy(data, keys, query) ==> x in data
  {
    if data != [] {
      FilterByMembers(data[1..], keys, query);
      assert forall x :: x in data[1..] ==> x in data;
    }
  }

  /**
   * `filterData(data, search)`: the keys searched are those of the first record; an
   * empty list is returned as it is, without looking at a first record (see `FilterDataSpec`).
   */
  function FilterData(data: seq<Record>, search: string): (r: seq<Record>)
    ensures |r| <= |data|
  {
    if data == [] then [] else FilterBy(data, data[0].Keys, Query(search))
  }

  /**
   * What `filterData` keeps: records of `data` in their order, each record that matches
   * the query on the first record's fields as often as it occurs, and no other.
   */
  lemma FilterDataSpec(data: seq<Record>, search: string)
    ensures data == [] ==> FilterData(data, search) == []
    ensures IsSubsequence(FilterData(data, search), data)
    ensures multiset(FilterData(data, search)) <= multiset(data)
    ensures data != [] ==> forall x :: (multiset(FilterData(data, search))[x] ==
      if Matches(data[0].Keys, x, Query(search)) then multiset(data)[x] else 0)
    ensures data != [] ==> forall i :: 0 <= i < |data| ==>
      (data[i] in FilterData(data, search) <==> Matches(data[0].Keys, data[i], Query(search)))
  {
    if data != [] {
      var r := FilterData(data, search);
      FilterBySpec(data, data[0].Keys, Query(search));
      forall i | 0 <= i < |data|
        ensures data[i] in r <==> Matches(data[0].Keys, data[i], Query(search))
      {
        assert data[i] in multiset(data);
        assert data[i] in r <==> data[i] in multiset(r);
      }
    }
  }

  /** JavaScript truthiness of `sortBy`: null and the empty key are both falsy. */
  predicate Truthy(sortBy: Option<string>)
  {
    sortBy.Some? && sortBy.value != ""
  }

  /** Both `null` and the empty key leave the list unsorted: `sortData` is then the filter alone. */
  lemma FalsySortKeyOnlyFilters(data: seq<Record>, reversed: bool, search: string, cmp: (string, string) -> int)
    ensures !Truthy(None) && !Truthy(Some(""))
    ensures SortData(data, None, reversed, search, cmp) == FilterData(data, search)
    ensures SortData(data, Some(""), reversed, search, cmp) == FilterData(data, search)
  {
  }

  /** The comparator handed to `sort`: arguments swapped when `reversed`. */
  function OrderBy(field: string, reversed: bool, cmp: (string, string) -> int): (c: (Record, Record) -> int)
    ensures forall a, b, a', b' {:trigger c(a, b), c(a', b')} ::
      FieldText(a, field) == FieldText(a', field) && FieldText(b, field) == FieldText(b', field) ==> c(a, b) == c(a', b')
  {
    (a: Record, b: Record) =>
      if reversed then cmp(FieldText(b, field), FieldText(a, field))
      else cmp(FieldText(a, field), FieldText(b, field))
  }

  /** The records are in ascending `cmp` order of `field`, or descending when `reversed`. */
  ghost predicate SortedByField(r: seq<Record>, field: string, reversed: bool, cmp: (string, string) -> int)
  {
    forall i, j :: 0 <= i < j < |r| ==>
      if reversed then cmp(FieldText(r[j], field), FieldText(r[i], field)) <= 0
      else cmp(FieldText(r[i], field), FieldText(r[j], field)) <= 0
  }

  /**
   * `sortData(data, {sortBy, reversed, search})`: without a sort key it is the filter
   * alone; with one it sorts a copy of `data` by the field and filters afterwards.
   */
  function SortData(data: seq<Record>, sortBy: Option<string>, reversed: bool, search: string,
                    cmp: (string, string) -> int): (r: seq<Record>)
    ensures data == [] ==> r == []
    ensures Truthy(sortBy) && Consistent(cmp) ==> SortedByField(r, sortBy.value, reversed, cmp)
  {
    if !Truthy(sortBy) then FilterData(data, search)
    else
      var c := OrderBy(sortBy.value, reversed, cmp);
      var sorted := Sort(data, c);
      OrderByConsistent(sortBy.value, reversed, cmp);
      SortSortedIfConsistent(data, c);
      FilterDataSorted(sorted, search, c);
      var r := FilterData(sorted, search);
      SortedByFieldFromOrder(r, sortBy.value, reversed, cmp);
      r
  }

  lemma OrderByConsistent(field: string, reversed: bool, cmp: (string, string) -> int)
    ensures Consistent(cmp) ==> Consistent(OrderBy(field, reversed, cmp))
  {
    if Consistent(cmp) {
      var c := OrderBy(field, reversed, cmp);
      forall a, b ensures c(a, b) < 0 <==> c(b, a) > 0 {
        assert cmp(FieldText(a, field), FieldText(b, field)) < 0 <==> cmp(FieldText(b, field), FieldText(a, field)) > 0;
      }
      forall a, b, d | c(a, b) <= 0 && c(b, d) <= 0 ensures c(a, d) <= 0 {
        var x, y, z := FieldText(a, field), FieldText(b, field), FieldText(d, field);
        if reversed {
          assert cmp(z, y) <= 0 && cmp(y, x) <= 0;
        } else {
          assert cmp(x, y) <= 0 && cmp(y, z) <= 0;
        }
      }
    }
  }

  lemma SortSortedIfConsistent(s: seq<Record>, c: (Record, Record) -> int)
    ensures Consistent(c) ==> Sorted(Sort(s, c), c)
  {
    if Consistent(c) {
      SortSorted(s, c);
    }
  }

  lemma SortedByFieldFromOrder(r: seq<Record>, field: string, reversed: bool, cmp: (string, string) -> int)
    ensures Sorted(r, OrderBy(field, reversed, cmp)) ==> SortedByField(r, field, reversed, cmp)
  {
    if Sorted(r, OrderBy(field, reversed, cmp)) {
      var c := OrderBy(field, reversed, cmp);
      forall i, j | 0 <= i < j < |r|
        ensures if reversed then cmp(FieldText(r[j], field), FieldText(r[i], field)) <= 0
                else cmp(FieldText(r[i], field), FieldText(r[j], field)) <= 0
      {
        assert c(r[i], r[j]) <= 0;
      }
    }
  }

  lemma {:induction false} FilterBySorted(s: seq<Record>, keys: set<string>, query: string, c: (Record, Record) -> int)
    requires Sorted(s, c)
    ensures Sorted(FilterBy(s, keys, query), c)
  {
    if s != [] {
      assert Sorted(s[1..], c);
      FilterBySorted(s[1..], keys, query, c);
      FilterByMembers(s[1..], keys, query);
      var t := FilterBy(s[1..], keys, query);
      if Matches(keys, s[0], query) {
        forall e | e in t ensures c(s[0], e) <= 0 {
          var k :| 0 <= k < |s[1..]| && s[1..][k] == e;
          assert s[k + 1] == e;
        }
        SortedCons(s[0], t, c);
      }
    }
  }

  lemma FilterDataSorted(s: seq<Record>, search: string, c: (Record, Record) -> int)
    ensures Sorted(s, c) ==> Sorted(FilterData(s, search), c)
  {
    if s != [] && Sorted(s, c) {
      FilterBySorted(s, s[0].Keys, Query(search), c);
    }
  }

  /** Filtering commutes with inserting one record into a sorted list. */
  lemma {:induction false} FilterByInsert(x: Record, s: seq<Record>, keys: set<string>, query: string,
                                          c: (Record, Record) -> int)
    requires Sorted(s, c)
    requires forall a, b :: c(x, a) <= 0 && c(a, b) <= 0 ==> c(x, b) <= 0
    ensures FilterBy(Insert(x, s, c), keys, query) ==
      if Matches(keys, x, query) then Insert(x, FilterBy(s, keys, query), c) else FilterBy(s, keys, query)
  {
    var p := Matches(keys, x, query);
    if s == [] {
    } else if c(x, s[0]) <= 0 {
      assert Insert(x, s, c) == [x] + s;
      assert ([x] + s)[1..] == s;
      var t := FilterBy(s, keys, query);
      if p && t != [] {
        FilterByMembers(s, keys, query);
        assert t[0] in t;
        var k :| 0 <= k < |s| && s[k] == t[0];
        if k > 0 {
          assert c(s[0], s[k]) <= 0;
        }
        assert c(x, t[0]) <= 0;
      }
    } else {
      assert Insert(x, s, c) == [s[0]] + Insert(x, s[1..], c);
      assert ([s[0]] + Insert(x, s[1..], c))[1..] == Insert(x, s[1..], c);
      assert Sorted(s[1..], c);
      FilterByInsert(x, s[1..], keys, query, c);
      if p && Matches(keys, s[0], query) {
        var t := FilterBy(s[1..], keys, query);
        assert FilterBy(s, keys, query) == [s[0]] + t;
        assert Insert(x, [s[0]] + t, c) == [s[0]] + Insert(x, t, c);
      }
    }
  }

  /** Filtering after a stable sort gives the same list as sorting after filtering. */
  lemma {:induction false} FilterBySortCommute(s: seq<Record>, keys: set<string>, query: string,
                                               c: (Record, Record) -> int)
    requires Consistent(c)
    ensures FilterBy(Sort(s, c), keys, query) == Sort(FilterBy(s, keys, query), c)
  {
    if s != [] {
      FilterBySortCommute(s[1..], keys, query, c);
      SortSorted(s[1..], c);
      assert forall a, b :: c(s[0], a) <= 0 && c(a, b) <= 0 ==> c(s[0], b) <= 0;
      FilterByInsert(s[0], Sort(s[1..], c), keys, query, c);
      if Matches(keys, s[0], query) {
        var t := FilterBy(s[1..], keys, query);
        assert ([s[0]] + t)[0] == s[0] && ([s[0]] + t)[1..] == t;
      }
    }
  }

  /**
   * Every record has the same field names, as the record type declares. This is an assumption
   * about the data: the records arrive over the network and nothing checks their shape.
   */
  ghost predicate UniformKeys(data: seq<Record>)
  {
    forall a, b :: a in data && b in data ==> a.Keys == b.Keys
  }

  /**
   * The view only ever shows records of `data`, no more often than they occur there;
   * without a sort key it keeps them in their input order.
   */
  lemma SortDataDrawsFromData(data: seq<Record>, sortBy: Option<string>, reversed: bool, search: string,
                              cmp: (string, string) -> int)
    ensures multiset(SortData(data, sortBy, reversed, search, cmp)) <= multiset(data)
    ensures !Truthy(sortBy) ==> IsSubsequence(SortData(data, sortBy, reversed, search, cmp), data)
  {
    if Truthy(sortBy) {
      var sorted := Sort(data, OrderBy(sortBy.value, reversed, cmp));
      FilterDataSpec(sorted, search);
    } else {
      FilterDataSpec(data, search);
    }
  }

  /**
   * With a sort key and a consistent comparator, `sortData` is the stable sort of the
   * records that match on the fields of the sorted copy's first record.
   */
  lemma SortDataFiltersOnSortedHead(data: seq<Record>, sortBy: Option<string>, reversed: bool, search: string,
                                    cmp: (string, string) -> int)
    requires Consistent(cmp) && Truthy(sortBy) && data != []
    ensures var c := OrderBy(sortBy.value, reversed, cmp);
      SortData(data, sortBy, reversed, search, cmp) == Sort(FilterBy(data, Sort(data, c)[0].Keys, Query(search)), c)
  {
    var c := OrderBy(sortBy.value, reversed, cmp);
    OrderByConsistent(sortBy.value, reversed, cmp);
    FilterBySortCommute(data, Sort(data, c)[0].Keys, Query(search), c);
  }

  /**
   * With a sort key, uniform records and a consistent comparator, `sortData` is the
   * stable sort of the filtered records.
   */
  lemma SortDataIsSortedFilter(data: seq<Record>, sortBy: Option<string>, reversed: bool, search: string,
                               cmp: (string, string) -> int)
    requires UniformKeys(data) && Consistent(cmp) && Truthy(sortBy)
    ensures SortData(data, sortBy, reversed, search, cmp) ==
      Sort(FilterData(data, search), OrderBy(sortBy.value, reversed, cmp))
  {
    if data != [] {
      var c := OrderBy(sortBy.value, reversed, cmp);
      var sorted := Sort(data, c);
      assert sorted[0] in multiset(data);
      assert sorted[0].Keys == data[0].Keys;
      SortDataFiltersOnSortedHead(data, sortBy, reversed, search, cmp);
    }
  }

  /**
   * What the sorted view promises: a permutation of the filtered records, in field
   * order, and records that compare equal keep their relative input order.
   */
  lemma SortDataSortedStablePermutation(data: seq<Record>, sortBy: Option<string>, reversed: bool,
                                        search: string, cmp: (string, string) -> int, y: Record)
    requires UniformKeys(data) && Consistent(cmp) && Truthy(sortBy)
    ensures var r := SortData(data, sortBy, reversed, search, cmp);
      && multiset(r) == multiset(FilterData(data, search))
      && SortedByField(r, sortBy.value, reversed, cmp)
      && Ties(r, y, OrderBy(sortBy.value, reversed, cmp)) ==
         Ties(FilterData(data, search), y, OrderBy(sortBy.value, reversed, cmp))
  {
    SortDataIsSortedFilter(data, sortBy, reversed, search, cmp);
    OrderByConsistent(sortBy.value, reversed, cmp);
    SortStable(FilterData(data, search), y, OrderBy(sortBy.value, reversed, cmp));
  }

  /** `cmp` with its arguments swapped. */
  function Swap(cmp: (string, string) -> int): (string, string) -> int
  {
    (a: string, b: string) => cmp(b, a)
  }

  /**
   * The `reversed` flag only swaps the arguments of `localeCompare`: a reversed sort is
   * the forward sort under the swapped comparison, and nothing else changes.
   */
  lemma SortDataReversedSwapsArguments(data: seq<Record>, sortBy: Option<string>, search: string,
                                       cmp: (string, string) -> int)
    ensures SortData(data, sortBy, true, search, cmp) == SortData(data, sortBy, false, search, Swap(cmp))
  {
    if Truthy(sortBy) {
      var c1 := OrderBy(sortBy.value, true, cmp);
      var c2 := OrderBy(sortBy.value, false, Swap(cmp));
      SortSameComparator(data, c1, c2);
    }
  }

  lemma OrderByReversedSwaps(field: string, cmp: (string, string) -> int)
    ensures forall a, b :: OrderBy(field, true, cmp)(a, b) == OrderBy(field, false, cmp)(b, a)
  {
  }

  lemma FilterDataNoTies(data: seq<Record>, search: string, c: (Record, Record) -> int)
    requires forall a, b :: a in data && b in data && c(a, b) == 0 ==> a == b
    ensures NoTies(FilterData(data, search), c)
  {
    if data != [] {
      FilterByMembers(data, data[0].Keys, Query(search));
    }
  }

  /**
   * When no two different records tie on the sort field, the reversed view is the
   * forward view read backwards.
   */
  lemma SortDataReversedIsBackwards(data: seq<Record>, sortBy: Option<string>, search: string,
                                    cmp: (string, string) -> int)
    requires UniformKeys(data) && Consistent(cmp) && Truthy(sortBy)
    requires forall a, b :: (a in data && b in data &&
      cmp(FieldText(a, sortBy.value), FieldText(b, sortBy.value)) == 0) ==> a == b
    ensures SortData(data, sortBy, true, search, cmp) == Reverse(SortData(data, sortBy, false, search, cmp))
  {
    var up := OrderBy(sortBy.value, false, cmp);
    var down := OrderBy(sortBy.value, true, cmp);
    SortDataIsSortedFilter(data, sortBy, true, search, cmp);
    SortDataIsSortedFilter(data, sortBy, false, search, cmp);
    OrderByConsistent(sortBy.value, false, cmp);
    FilterDataNoTies(data, search, up);
    OrderByReversedSwaps(sortBy.value, cmp);
    SwappedSortIsReverse(FilterData(data, search), up, down);
  }

  /** An empty (or whitespace-only) query keeps every record, when the first record has a field. */
  lemma FilterEmptyQueryKeepsAll(data: seq<Record>, search: string)
    requires Query(search) == ""
    requires data != [] ==> data[0].Keys != {}
    ensures FilterData(data, search) == data
  {
    if data != [] {
      var k :| k in data[0].Keys;
      forall x ensures Matches(data[0].Keys, x, "") {
        ContainsEmpty(Lower(FieldText(x, k)));
      }
      FilterByAll(data, data[0].Keys, "");
    }
  }

  lemma {:induction false} FilterByAll(data: seq<Record>, keys: set<string>, query: string)
    requires forall x :: Matches(keys, x, query)
    ensures FilterBy(data, keys, query) == data
  {
    if data != [] {
      FilterByAll(data[1..], keys, query);
      assert data == [data[0]] + data[1..];
    }
  }

  /** A first record without fields leaves nothing to search, so nothing is kept, whatever the query. */
  lemma FilterFieldlessFirstRecord(data: seq<Record>, search: string)
    requires data != [] && data[0].Keys == {}
    ensures FilterData(data, search) == []
  {
    FilterBySpec(data, {}, Query(search));
  }

  lemma LowerSpringfield()
    ensures Lower("Springfield") == "springfield"
  {
    var low := Lower("Springfield");
    forall i | 0 <= i < 11 ensures low[i] == "springfield"[i] {
    }
  }

  lemma QuerySpring()
    ensures Query("spring") == "spring"
  {
    LowerUnchanged("spring");
    TrimUnchanged("spring");
  }

  lemma QueryFields()
    ensures Query("fields") == "fields"
  {
    LowerUnchanged("fields");
    TrimUnchanged("fields");
  }

  lemma QueryPaddedField()
    ensures Query(" FIELD ") == "field"
  {
    var low := Lower(" FIELD ");
    forall i | 0 <= i < 7 ensures low[i] == " field "[i] {
    }
    assert low == " field ";
    PaddedFieldTrims();
  }

  lemma PaddedFieldTrims()
    ensures Trim(" field ") == "field"
  {
    assert TrimStart(" field ") == "field ";
    assert TrimEnd("field ") == "field";
  }

  /** A one-record list is kept exactly when its record matches on its own fields. */
  lemma FilterSingleRecord(r: Record, search: string)
    ensures FilterData([r], search) == if Matches(r.Keys, r, Query(search)) then [r] else []
  {
    assert [r][1..] == [];
  }

  lemma SpringfieldLacksFields()
    ensures !Contains("springfield", "fields")
  {
    var low := "springfield";
    assert |low| == 11;
    forall i | 0 <= i <= |low| ensures !("fields" <= low[i..]) {
      if i < 6 {
        assert low[i] != 'f';
        assert low[i..][0] == low[i];
      } else {
        assert |low[i..]| < 6;
      }
    }
    ContainsIff(low, "fields");
  }

  /** The record of the Springfield examples. */
  function Springfield(): Record
  {
    map["city" := "Springfield"]
  }

  lemma SpringfieldText()
    ensures Springfield().Keys == {"city"}
    ensures Lower(FieldText(Springfield(), "city")) == "springfield"
  {
    LowerSpringfield();
  }

  /** Lower-cased substring search: "Springfield" is found by "spring" ... */
  lemma FilterFindsPrefix()
    ensures FilterData([Springfield()], "spring") == [Springfield()]
  {
    SpringfieldText();
    QuerySpring();
    ContainsAt("springfield", "spring", 0);
    FilterSingleRecord(Springfield(), "spring");
  }

  /** ... and by " FIELD ", whatever its case and surrounding blanks ... */
  lemma FilterIgnoresCaseAndBlanks()
    ensures FilterData([Springfield()], " FIELD ") == [Springfield()]
  {
    SpringfieldText();
    QueryPaddedField();
    assert "springfield"[6..] == "field";
    ContainsAt("springfield", "field", 6);
    FilterSingleRecord(Springfield(), " FIELD ");
  }

  /** ... but not by "fields", which is no substring of it. */
  lemma FilterRejectsNonSubstring()
    ensures FilterData([Springfield()], "fields") == []
  {
    SpringfieldText();
    QueryFields();
    SpringfieldLacksFields();
    FilterSingleRecord(Springfield(), "fields");
  }

  /** The icon a sortable header shows. */
  datatype SortIcon = ChevronUp | ChevronDown | Selector

  /** `Th`: up when sorted and reversed, down when sorted forward, the neutral selector otherwise. */
  function HeaderIcon(sorted: bool, reversed: bool): (icon: SortIcon)
    ensures icon == ChevronUp <==> sorted && reversed
    ensures icon == ChevronDown <==> sorted && !reversed
    ensures icon == Selector <==> !sorted
  {
    if sorted then (if reversed then ChevronUp else ChevronDown) else Selector
  }

  /** A text without the character `ch` does not contain the one-character query `[ch]`. */
  lemma {:induction false} LacksChar(t: string, ch: char)
    requires forall i :: 0 <= i < |t| ==> t[i] != ch
    ensures !Contains(t, [ch])
    decreases |t|
  {
    if t != [] {
      assert t[1..][0..] == t[1..];
      LacksChar(t[1..], ch);
      assert !([ch] <= t) by {
        assert t[0] != ch;
      }
    }
  }

  /** The query "p" is itself. */
  lemma QueryP()
    ensures Query("p") == "p"
  {
    assert Lower("p") == "p";
    assert TrimStart("p") == "p";
  }

  /**
   * Which records are searched on which fields depends on the first record: the same two
   * records, with different field names, give different results in the two orders.
   */
  lemma FilterDependsOnFirstRecord()
    ensures FilterData([map["x" := "p"], map["y" := "q"]], "p") == [map["x" := "p"]]
    ensures FilterData([map["y" := "q"], map["x" := "p"]], "p") == []
  {
    var a: Record, b: Record := map["x" := "p"], map["y" := "q"];
    QueryP();
    assert Lower("p") == "p" && Lower("q") == "q";
    assert Lower("undefined") == "undefined";
    LacksChar("undefined", 'p');
    LacksChar("q", 'p');
    assert Contains(Lower(FieldText(a, "x")), "p");
    assert !Matches({"x"}, b, "p") by {
      assert FieldText(b, "x") == "undefined";
    }
    assert !Matches({"y"}, b, "p");
    assert !Matches({"y"}, a, "p") by {
      assert FieldText(a, "y") == "undefined";
    }
    assert [a, b][1..] == [b] && [b, a][1..] == [a];
    assert [a, b][0].Keys == {"x"} && [b, a][0].Keys == {"y"};
  }
}
