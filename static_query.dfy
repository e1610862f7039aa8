/**
 * The pure half of the in-memory source's `list`: the recursive filter
 * compiler, the comparator of one sort entry, the engine's stable sort applied
 * once per entry, and the page slice with its `hasNextPage` flag; plus the
 * first-match lookup by key field that `read`, `update` and `delete` share.
 */
module StaticQuery {
  import opened Wrappers
  import opened Text
  import opened Source

  // ---------------------------------------------------------------------------
  // field conditions

  /** `a < b` on two numbers or on two strings; any other pair compares false. */
  predicate Less(a: Value, b: Value)
  {
    if a.Num? && b.Num? then a.n < b.n
    else if a.Str? && b.Str? then StrLess(a.s, b.s)
    else false
  }

  /** `a <= b` on two numbers or on two strings; any other pair compares false. */
  predicate LessEq(a: Value, b: Value)
  {
    if a.Num? && b.Num? then a.n <= b.n
    else if a.Str? && b.Str? then StrLess(a.s, b.s) || a.s == b.s
    else false
  }

  /** `item[field] LIKE value`: the field is a string containing the value's text. */
  predicate Like(a: Value, v: Value)
  {
    a.Str? && IndexOf(a.s, ToText(v)) > -1
  }

  /** One field condition; a missing operator is EQ. */
  predicate Holds(operator: Option<Operator>, a: Value, v: Value)
    ensures operator.None? ==> (Holds(operator, a, v) <==> a == v)
    ensures operator == Some(GTE) ==> (Holds(operator, a, v) <==> Less(v, a) || (a == v && (a.Num? || a.Str?)))
    ensures operator == Some(LTE) ==> (Holds(operator, a, v) <==> Less(a, v) || (a == v && (a.Num? || a.Str?)))
    ensures operator.Some? && operator.value in {GT, GTE, LT, LTE} && !(a.Num? && v.Num?) && !(a.Str? && v.Str?) ==>
              !Holds(operator, a, v)
  {
    match operator.GetOr(EQ)
    case GT => Less(v, a)
    case GTE => LessEq(v, a)
    case LT => Less(a, v)
    case LTE => LessEq(a, v)
    case NOTEQ => a != v
    case LIKE => Like(a, v)
    case EQ => a == v
  }

  lemma LikeIsSubstring(a: Value, v: Value)
    ensures Like(a, v) <==> a.Str? && exists j :: 0 <= j <= |a.s| && ToText(v) <= a.s[j..]
  {
  }

  // ---------------------------------------------------------------------------
  // the filter compiler

  /** The predicate one filter node compiles to. */
  predicate EvalNode(node: FilterNode, item: Record)
    ensures node.Aggregate? && |node.filter| == 0 ==> (EvalNode(node, item) <==> node.aggregation == AND)
    ensures node.Aggregate? && node.aggregation == AND ==>
              (EvalNode(node, item) <==> forall i :: 0 <= i < |node.filter| ==> EvalNode(node.filter[i], item))
    ensures node.Aggregate? && node.aggregation == OR ==>
              (EvalNode(node, item) <==> exists i :: 0 <= i < |node.filter| && EvalNode(node.filter[i], item))
    decreases node, 1
  {
    match node
    case Condition(operator, field, value) => Holds(operator, Get(item, field), value)
    case Aggregate(aggregation, children) => EvalList(children, aggregation, item)
  }

  /**
   * `generateFilterFunction(filter, agg)`: the list of nodes combined with
   * AND (every node holds; true when empty) or OR (some node holds; false
   * when empty).
   */
  predicate EvalList(filter: seq<FilterNode>, agg: Aggregation, item: Record)
    ensures agg == AND ==> (EvalList(filter, agg, item) <==> forall i :: 0 <= i < |filter| ==> EvalNode(filter[i], item))
    ensures agg == OR ==> (EvalList(filter, agg, item) <==> exists i :: 0 <= i < |filter| && EvalNode(filter[i], item))
    decreases filter, 0
  {
    if |filter| == 0 then agg == AND
    else
      var first := EvalNode(filter[0], item);
      var rest := EvalList(filter[1..], agg, item);
      assert forall i :: 1 <= i < |filter| ==> filter[i] == filter[1..][i - 1];
      if agg == AND then first && rest else first || rest
  }

  /** The top-level filter list of `list`, combined with AND. */
  predicate Matches(filter: seq<FilterNode>, item: Record)
    ensures Matches(filter, item) <==> forall i :: 0 <= i < |filter| ==> EvalNode(filter[i], item)
  {
    EvalList(filter, AND, item)
  }

  /** `data.filter(filterFunction)`: the matching records, in their order. */
  function Select(data: seq<Record>, filter: seq<FilterNode>): (r: seq<Record>)
    ensures |r| <= |data|
    ensures forall x :: x in r <==> x in data && Matches(filter, x)
    ensures forall x :: multiset(r)[x] == if Matches(filter, x) then multiset(data)[x] else 0
    decreases |data|
  {
    if |data| == 0 then []
    else
      var head := if Matches(filter, data[0]) then [data[0]] else [];
      assert multiset(data) == multiset{data[0]} + multiset(data[1..]) by {
        assert data == [data[0]] + data[1..];
      }
      head + Select(data[1..], filter)
  }

  /** `filter` keeps the order: filtering a concatenation concatenates the filtered parts. */
  lemma {:induction false} SelectAppend(a: seq<Record>, b: seq<Record>, filter: seq<FilterNode>)
    ensures Select(a + b, filter) == Select(a, filter) + Select(b, filter)
    decreases |a|
  {
    if |a| > 0 {
      var head := if Matches(filter, a[0]) then [a[0]] else [];
      var ab := a + b;
      assert Select(ab, filter) == head + Select(a[1..] + b, filter) by {
        assert ab[0] == a[0] && ab[1..] == a[1..] + b;
      }
      SelectAppend(a[1..], b, filter);
      assert Select(a, filter) == head + Select(a[1..], filter);
      ConcatAssoc(head, Select(a[1..], filter), Select(b, filter));
    } else {
      assert a + b == b;
    }
  }

  lemma ConcatAssoc(x: seq<Record>, y: seq<Record>, z: seq<Record>)
    ensures x + (y + z) == (x + y) + z
  {
  }

  /** A record is kept exactly when it matches: the filter of one record. */
  lemma SelectOne(x: Record, filter: seq<FilterNode>)
    ensures Select([x], filter) == if Matches(filter, x) then [x] else []
  {
    assert [x][1..] == [];
  }

  /** An empty filter list keeps every record. */
  lemma {:induction false} SelectEmptyFilter(data: seq<Record>)
    ensures Select(data, []) == data
    decreases |data|
  {
    if |data| > 0 {
      var x, rest := data[0], data[1..];
      assert [x] + rest == data;
      assert Select(data, []) == Select([x], []) + Select(rest, []) by {
        SelectAppend([x], rest, []);
      }
      assert Select([x], []) == [x] by {
        SelectOne(x, []);
        assert Matches([], x);
      }
      SelectEmptyFilter(rest);
    }
  }

  // ---------------------------------------------------------------------------
  // sorting

  function Sign(n: int): int { if n < 0 then -1 else if n == 0 then 0 else 1 }

  /**
   * The comparator body: numeric when either value is a number (a number
   * against a non-number gives NaN, which the sort reads as "equal"), a string
   * comparison otherwise.
   */
  function Compare(a: Value, b: Value): (r: int)
    ensures r == -1 || r == 0 || r == 1
    ensures a.Num? && b.Num? ==> (r < 0 <==> a.n < b.n) && (r == 0 <==> a.n == b.n)
    ensures a.Num? != b.Num? ==> r == 0
    ensures !a.Num? && !b.Num? ==> (r < 0 <==> StrLess(ToText(a), ToText(b))) && (r == 0 <==> ToText(a) == ToText(b))
  {
    if a.Num? || b.Num? then (if a.Num? && b.Num? then Sign(a.n - b.n) else 0)
    else StrCompare(ToText(a), ToText(b))
  }

  /** The comparator of one sort entry; DESC swaps the operands. */
  function EntryCompare(e: SortEntry, x: Record, y: Record): (r: int)
    ensures r == -1 || r == 0 || r == 1
    ensures Get(x, e.field) == Get(y, e.field) ==> r == 0
    ensures e.direction == Some(DESC) ==> r == -Compare(Get(x, e.field), Get(y, e.field))
  {
    if e.direction == Some(DESC) then
      var a, b := Get(x, e.field), Get(y, e.field);
      assert Compare(b, a) == -Compare(a, b) by {
        if !(a.Num? || b.Num?) { StrCompareAntisymmetric(ToText(a), ToText(b)); }
      }
      Compare(b, a)
    else Compare(Get(x, e.field), Get(y, e.field))
  }

  lemma EntryCompareAntisymmetric(e: SortEntry, x: Record, y: Record)
    ensures EntryCompare(e, x, y) == -EntryCompare(e, y, x)
  {
    var a, b := Get(x, e.field), Get(y, e.field);
    if !(a.Num? || b.Num?) { StrCompareAntisymmetric(ToText(a), ToText(b)); }
  }

  /** Every record's value for `field` is a number, or none is. */
  predicate Homogeneous(s: seq<Record>, field: string)
  {
    (forall x :: x in s ==> Get(x, field).Num?) || (forall x :: x in s ==> !Get(x, field).Num?)
  }

  lemma EntryCompareTransitive(e: SortEntry, x: Record, y: Record, z: Record)
    requires (Get(x, e.field).Num? && Get(y, e.field).Num? && Get(z, e.field).Num?) ||
             (!Get(x, e.field).Num? && !Get(y, e.field).Num? && !Get(z, e.field).Num?)
    requires EntryCompare(e, x, y) <= 0 && EntryCompare(e, y, z) <= 0
    ensures EntryCompare(e, x, z) <= 0
  {
    var a, b, c := Get(x, e.field), Get(y, e.field), Get(z, e.field);
    if !a.Num? {
      if e.direction == Some(DESC) {
        StrCompareTransitive(ToText(c), ToText(b), ToText(a));
      } else {
        StrCompareTransitive(ToText(a), ToText(b), ToText(c));
      }
    }
  }

  /** Neighbours are in order. */
  predicate Sorted(e: SortEntry, s: seq<Record>)
  {
    forall i :: 0 <= i < |s| - 1 ==> EntryCompare(e, s[i], s[i + 1]) <= 0
  }

  /** Every earlier record is in order with every later one. */
  predicate PairwiseSorted(e: SortEntry, s: seq<Record>)
  {
    forall i, j :: 0 <= i < j < |s| ==> EntryCompare(e, s[i], s[j]) <= 0
  }

  /**
   * Ordered by `major`, and by `minor` among neighbours that `major` ranks
   * equal: what sorting by `minor` and then, stably, by `major` produces.
   */
  predicate SortedThenBy(major: SortEntry, minor: SortEntry, s: seq<Record>)
  {
    forall i :: 0 <= i < |s| - 1 ==> InOrderThenBy(major, minor, s[i], s[i + 1])
  }

  /** `a` may precede `b`: before it by `major`, or equal by `major` and not after it by `minor`. */
  predicate InOrderThenBy(major: SortEntry, minor: SortEntry, a: Record, b: Record)
  {
    EntryCompare(major, a, b) < 0 || (EntryCompare(major, a, b) == 0 && EntryCompare(minor, a, b) <= 0)
  }

  /** One insertion step: `x` goes after every record it does not precede. */
  function Insert(e: SortEntry, x: Record, s: seq<Record>): (r: seq<Record>)
    ensures |r| == |s| + 1
    ensures |s| == 0 ==> r == [x]
    ensures |s| > 0 ==> r[0] == x || r[0] == s[0]
    decreases |s|
  {
    if |s| == 0 then [x]
    else if EntryCompare(e, x, s[0]) < 0 then [x] + s
    else [s[0]] + Insert(e, x, s[1..])
  }

  /** Inserting adds exactly the one record. */
  lemma {:induction false} InsertPermutes(e: SortEntry, x: Record, s: seq<Record>)
    ensures multiset(Insert(e, x, s)) == multiset(s) + multiset{x}
    decreases |s|
  {
    if |s| > 0 && EntryCompare(e, x, s[0]) >= 0 {
      InsertPermutes(e, x, s[1..]);
      assert s == [s[0]] + s[1..];
    }
  }

  /** The stable sort by one entry (`filtered.sort(comparator)`). */
  function SortBy(e: SortEntry, s: seq<Record>): (r: seq<Record>)
    ensures |r| == |s|
    ensures multiset(r) == multiset(s)
    decreases |s|
  {
    if |s| == 0 then []
    else
      var init, x := s[..|s| - 1], s[|s| - 1];
      assert s == init + [x];
      InsertPermutes(e, x, SortBy(e, init));
      Insert(e, x, SortBy(e, init))
  }

  lemma {:induction false} InsertSorted(e: SortEntry, x: Record, s: seq<Record>)
    requires Sorted(e, s)
    ensures Sorted(e, Insert(e, x, s))
    decreases |s|
  {
    if |s| > 0 && EntryCompare(e, x, s[0]) >= 0 {
      SortedTail(e, s);
      InsertSorted(e, x, s[1..]);
      HeadBeforeInsert(e, x, s);
      SortedCons(e, s[0], Insert(e, x, s[1..]));
    }
  }

  lemma SortedTail(e: SortEntry, s: seq<Record>)
    requires Sorted(e, s) && |s| > 0
    ensures Sorted(e, s[1..])
  {
    var rest := s[1..];
    forall i | 0 <= i < |rest| - 1 ensures EntryCompare(e, rest[i], rest[i + 1]) <= 0 {
      assert rest[i] == s[i + 1] && rest[i + 1] == s[i + 2];
    }
  }

  /** A record not before the head goes after it, and the head stays in order with what follows. */
  lemma HeadBeforeInsert(e: SortEntry, x: Record, s: seq<Record>)
    requires Sorted(e, s) && |s| > 0 && EntryCompare(e, x, s[0]) >= 0
    ensures Insert(e, x, s) == [s[0]] + Insert(e, x, s[1..])
    ensures EntryCompare(e, s[0], Insert(e, x, s[1..])[0]) <= 0
  {
    var rest := s[1..];
    EntryCompareAntisymmetric(e, x, s[0]);
    if |rest| > 0 { assert rest[0] == s[1]; }
  }

  /** A record in order with the head of a sorted sequence can go in front of it. */
  lemma SortedCons(e: SortEntry, a: Record, t: seq<Record>)
    requires Sorted(e, t)
    requires |t| > 0 ==> EntryCompare(e, a, t[0]) <= 0
    ensures Sorted(e, [a] + t)
  {
    var r := [a] + t;
    forall i | 0 <= i < |r| - 1 ensures EntryCompare(e, r[i], r[i + 1]) <= 0 {
      if i > 0 {
        assert r[i] == t[i - 1] && r[i + 1] == t[i];
      }
    }
  }

  /** The sort's output is in order by its entry, whatever the input. */
  lemma {:induction false} SortBySorted(e: SortEntry, s: seq<Record>)
    ensures Sorted(e, SortBy(e, s))
    decreases |s|
  {
    if |s| > 0 {
      SortBySorted(e, s[..|s| - 1]);
      InsertSorted(e, s[|s| - 1], SortBy(e, s[..|s| - 1]));
    }
  }

  /** Sorting an already sorted sequence changes nothing (the sort is stable). */
  lemma {:induction false} SortByIdempotent(e: SortEntry, s: seq<Record>)
    requires PairwiseSorted(e, s)
    ensures SortBy(e, s) == s
    decreases |s|
  {
    if |s| > 0 {
      PairwiseSortedPrefix(e, s);
      SortByIdempotent(e, s[..|s| - 1]);
      LastInsertedAtEnd(e, s);
    }
  }

  /** The prefix of a pairwise sorted sequence is pairwise sorted. */
  lemma PairwiseSortedPrefix(e: SortEntry, s: seq<Record>)
    requires PairwiseSorted(e, s) && |s| > 0
    ensures PairwiseSorted(e, s[..|s| - 1])
  {
    var p := s[..|s| - 1];
    forall i, j | 0 <= i < j < |p| ensures EntryCompare(e, p[i], p[j]) <= 0 {
      assert p[i] == s[i] && p[j] == s[j];
    }
  }

  /** Inserting the last record of a pairwise sorted sequence into the others rebuilds it. */
  lemma LastInsertedAtEnd(e: SortEntry, s: seq<Record>)
    requires PairwiseSorted(e, s) && |s| > 0
    ensures Insert(e, s[|s| - 1], s[..|s| - 1]) == s
  {
    var p, x := s[..|s| - 1], s[|s| - 1];
    forall i | 0 <= i < |p| ensures EntryCompare(e, x, p[i]) >= 0 {
      assert p[i] == s[i];
      EntryCompareAntisymmetric(e, s[i], x);
    }
    InsertAtEnd(e, x, p);
    assert s == p + [x];
  }

  lemma {:induction false} InsertAtEnd(e: SortEntry, x: Record, s: seq<Record>)
    requires forall i :: 0 <= i < |s| ==> EntryCompare(e, x, s[i]) >= 0
    ensures Insert(e, x, s) == s + [x]
    decreases |s|
  {
    if |s| > 0 {
      InsertAtEnd(e, x, s[1..]);
      assert s == [s[0]] + s[1..];
    }
  }

  /** Adjacent order becomes pairwise order when the field's comparator is transitive. */
  lemma {:induction false} SortedPairwise(e: SortEntry, s: seq<Record>)
    requires Sorted(e, s) && Homogeneous(s, e.field)
    ensures PairwiseSorted(e, s)
  {
    forall i, j | 0 <= i < j < |s| ensures EntryCompare(e, s[i], s[j]) <= 0 {
      SortedSpan(e, s, i, j);
    }
  }

  lemma {:induction false} SortedSpan(e: SortEntry, s: seq<Record>, i: int, j: int)
    requires Sorted(e, s) && Homogeneous(s, e.field)
    requires 0 <= i < j < |s|
    ensures EntryCompare(e, s[i], s[j]) <= 0
    decreases j - i
  {
    if j > i + 1 {
      SortedSpan(e, s, i, j - 1);
      SortedStep(e, s, i, j);
    }
  }

  /** A record in order with the one before `s[j]` is in order with `s[j]`. */
  lemma SortedStep(e: SortEntry, s: seq<Record>, i: int, j: int)
    requires Sorted(e, s) && Homogeneous(s, e.field)
    requires 0 <= i < j - 1 && j < |s|
    requires EntryCompare(e, s[i], s[j - 1]) <= 0
    ensures EntryCompare(e, s[i], s[j]) <= 0
  {
    SameKind(s, e.field, i, j - 1, j);
    EntryCompareTransitive(e, s[i], s[j - 1], s[j]);
  }

  /** Three records of a homogeneous sequence are all numbers for `field`, or none is. */
  lemma SameKind(s: seq<Record>, field: string, i: int, j: int, k: int)
    requires Homogeneous(s, field) && 0 <= i < |s| && 0 <= j < |s| && 0 <= k < |s|
    ensures (Get(s[i], field).Num? && Get(s[j], field).Num? && Get(s[k], field).Num?) ||
            (!Get(s[i], field).Num? && !Get(s[j], field).Num? && !Get(s[k], field).Num?)
  {
    assert s[i] in s && s[j] in s && s[k] in s;
  }

  /** Inserting a record that every present record precedes by `minor` keeps the two-key order. */
  lemma {:induction false} InsertStable(major: SortEntry, minor: SortEntry, x: Record, s: seq<Record>)
    requires SortedThenBy(major, minor, s)
    requires forall y :: y in s ==> EntryCompare(minor, y, x) <= 0
    ensures SortedThenBy(major, minor, Insert(major, x, s))
    decreases |s|
  {
    if |s| > 0 && EntryCompare(major, x, s[0]) >= 0 {
      var rest := s[1..];
      SortedThenByTail(major, minor, x, s);
      InsertStable(major, minor, x, rest);
      var tail := Insert(major, x, rest);
      assert Insert(major, x, s) == [s[0]] + tail;
      assert |tail| > 0 ==> InOrderThenBy(major, minor, s[0], tail[0]) by {
        EntryCompareAntisymmetric(major, x, s[0]);
        assert s[0] in s;
        if |rest| > 0 && tail[0] == rest[0] {
          assert rest[0] == s[1];
        }
      }
      ConsSortedThenBy(major, minor, s[0], tail);
    }
  }

  /** The tail of a two-key ordered sequence is two-key ordered, and still precedes `x` by `minor`. */
  lemma SortedThenByTail(major: SortEntry, minor: SortEntry, x: Record, s: seq<Record>)
    requires |s| > 0 && SortedThenBy(major, minor, s)
    requires forall y :: y in s ==> EntryCompare(minor, y, x) <= 0
    ensures SortedThenBy(major, minor, s[1..])
    ensures forall y :: y in s[1..] ==> EntryCompare(minor, y, x) <= 0
  {
    var rest := s[1..];
    forall i | 0 <= i < |rest| - 1 ensures InOrderThenBy(major, minor, rest[i], rest[i + 1]) {
      assert rest[i] == s[i + 1] && rest[i + 1] == s[i + 2];
    }
    forall y | y in rest ensures EntryCompare(minor, y, x) <= 0 {
      assert y in s;
    }
  }

  /** A record in two-key order with the head of a two-key ordered sequence can go in front of it. */
  lemma ConsSortedThenBy(major: SortEntry, minor: SortEntry, a: Record, t: seq<Record>)
    requires SortedThenBy(major, minor, t)
    requires |t| > 0 ==> InOrderThenBy(major, minor, a, t[0])
    ensures SortedThenBy(major, minor, [a] + t)
  {
    var r := [a] + t;
    forall i | 0 <= i < |r| - 1 ensures InOrderThenBy(major, minor, r[i], r[i + 1]) {
      if i > 0 {
        assert r[i] == t[i - 1] && r[i + 1] == t[i];
      }
    }
  }

  /** The sort is stable: input ordered by `minor` comes out ordered by `major`, then `minor`. */
  lemma {:induction false} SortByStable(major: SortEntry, minor: SortEntry, s: seq<Record>)
    requires PairwiseSorted(minor, s)
    ensures SortedThenBy(major, minor, SortBy(major, s))
    decreases |s|
  {
    if |s| > 0 {
      var p, x := s[..|s| - 1], s[|s| - 1];
      assert PairwiseSorted(minor, p);
      SortByStable(major, minor, p);
      forall y | y in SortBy(major, p) ensures EntryCompare(minor, y, x) <= 0 {
        assert y in multiset(SortBy(major, p));
        var i :| 0 <= i < |p| && p[i] == y;
      }
      InsertStable(major, minor, x, SortBy(major, p));
    }
  }

  /** `sorting.forEach(entry => filtered.sort(...))`: one full stable sort per entry, in order. */
  function ApplySorts(s: seq<Record>, sorting: seq<SortEntry>): (r: seq<Record>)
    ensures multiset(r) == multiset(s)
    decreases |sorting|
  {
    if |sorting| == 0 then s
    else SortBy(sorting[|sorting| - 1], ApplySorts(s, sorting[..|sorting| - 1]))
  }

  /** One more entry sorts the previous result once more. */
  lemma ApplySortsStep(s: seq<Record>, sorting: seq<SortEntry>, i: int)
    requires 0 <= i < |sorting|
    ensures ApplySorts(s, sorting[..i + 1]) == SortBy(sorting[i], ApplySorts(s, sorting[..i]))
  {
    assert sorting[..i + 1][..i] == sorting[..i];
  }

  /** The last sort entry is the dominant key. */
  lemma LastSortDominates(s: seq<Record>, sorting: seq<SortEntry>)
    requires |sorting| > 0
    ensures Sorted(sorting[|sorting| - 1], ApplySorts(s, sorting))
  {
    SortBySorted(sorting[|sorting| - 1], ApplySorts(s, sorting[..|sorting| - 1]));
  }

  /**
   * With two or more entries the earlier one breaks the last one's ties,
   * provided the earlier entry's field is all numbers or all non-numbers.
   */
  lemma PreviousSortBreaksTies(s: seq<Record>, sorting: seq<SortEntry>)
    requires |sorting| >= 2
    requires Homogeneous(s, sorting[|sorting| - 2].field)
    ensures SortedThenBy(sorting[|sorting| - 1], sorting[|sorting| - 2], ApplySorts(s, sorting))
  {
    var n := |sorting|;
    var major, minor := sorting[n - 1], sorting[n - 2];
    var before := ApplySorts(s, sorting[..n - 2]);
    assert sorting[..n - 1][..n - 2] == sorting[..n - 2];
    var byMinor := SortBy(minor, before);
    assert ApplySorts(s, sorting[..n - 1]) == byMinor;
    forall x | x in byMinor ensures x in s {
      assert x in multiset(byMinor);
    }
    SortBySorted(minor, before);
    SortedPairwise(minor, byMinor);
    SortByStable(major, minor, byMinor);
  }

  // ---------------------------------------------------------------------------
  // the page

  /** How `Array.prototype.slice` reads an index: negative counts from the end; clamped to the length. */
  function SliceIndex(i: int, len: nat): (k: nat)
    ensures k <= len
    ensures 0 <= i <= len ==> k == i
  {
    if i < 0 then (if len + i < 0 then 0 else len + i)
    else if i > len then len else i
  }

  /** `s.slice(start, end)`. */
  function Slice(s: seq<Record>, start: int, end: int): (r: seq<Record>)
    ensures |r| <= |s|
    ensures forall x :: x in r ==> x in s
    ensures 0 <= start <= end <= |s| ==> r == s[start..end]
  {
    var a, b := SliceIndex(start, |s|), SliceIndex(end, |s|);
    if a < b then s[a..b] else []
  }

  /** The page `[page * countOnPage, page * countOnPage + countOnPage)` and whether a record exists just past it. */
  function PageOf(s: seq<Record>, p: Pagination): (r: ListResult)
    ensures r.meta.hasNextPage.Some?
    ensures forall x :: x in r.data ==> x in s
    ensures p.page >= 0 && p.countOnPage >= 0 ==> |r.data| <= p.countOnPage
  {
    var start := p.page * p.countOnPage;
    var end := start + p.countOnPage;
    ListResult(Slice(s, start, end), Meta(Some(0 <= end < |s|)))
  }

  function Min(a: int, b: int): int { if a <= b then a else b }

  /** For a non-negative page and a positive count, the page is the clamped window and `hasNextPage` says a record follows it. */
  lemma PageWindow(s: seq<Record>, p: Pagination)
    requires p.page >= 0 && p.countOnPage > 0
    ensures var start := p.page * p.countOnPage;
            PageOf(s, p).data == s[Min(start, |s|)..Min(start + p.countOnPage, |s|)]
    ensures PageOf(s, p).meta.hasNextPage == Some((p.page + 1) * p.countOnPage < |s|)
  {
    MulSucc(p.page, p.countOnPage);
  }

  /** `hasNextPage` holds exactly when the following page is not empty. */
  lemma HasNextPageIffNextPageNonEmpty(s: seq<Record>, p: Pagination)
    requires p.page >= 0 && p.countOnPage > 0
    ensures PageOf(s, p).meta.hasNextPage == Some(PageOf(s, Pagination(p.page + 1, p.countOnPage)).data != [])
  {
    var next := Pagination(p.page + 1, p.countOnPage);
    var a := next.page * next.countOnPage;
    MulSucc(p.page, p.countOnPage);
    PageWindow(s, p);
    PageWindow(s, next);
    WindowNonEmpty(s, a, p.countOnPage);
  }

  /** A window of `count > 0` records from `a` is non-empty exactly when `a` is inside the sequence. */
  lemma WindowNonEmpty(s: seq<Record>, a: int, count: int)
    requires a >= 0 && count > 0
    ensures s[Min(a, |s|)..Min(a + count, |s|)] != [] <==> a < |s|
  {
  }

  /** Pages `0 .. n-1` with `count` records each, concatenated. */
  function Pages(s: seq<Record>, count: int, n: nat): seq<Record>
  {
    if n == 0 then [] else Pages(s, count, n - 1) + PageOf(s, Pagination(n - 1, count)).data
  }

  /** `(k + 1) * c` as a sum, kept apart so that the page proofs stay linear. */
  lemma MulSucc(k: int, c: int)
    ensures (k + 1) * c == k * c + c
    ensures k >= 0 && c >= 0 ==> k * c >= 0
  {
  }

  /** The pages partition the records: the first `n` pages are exactly the first `n * count` records. */
  lemma {:induction false} PagesPartition(s: seq<Record>, count: int, n: nat)
    requires count > 0
    ensures Pages(s, count, n) == s[..Min(n * count, |s|)]
  {
    if n > 0 {
      var k := n - 1;
      PagesPartition(s, count, k);
      PagesStep(s, count, k);
      MulSucc(k, count);
      PrefixThenWindow(s, k * count, count);
    }
  }

  /** One more page appends the window of page `k`. */
  lemma PagesStep(s: seq<Record>, count: int, k: nat)
    requires count > 0
    ensures Pages(s, count, k + 1) == Pages(s, count, k) + s[Min(k * count, |s|)..Min(k * count + count, |s|)]
  {
    PageWindow(s, Pagination(k, count));
  }

  /** A prefix followed by the window after it is the longer prefix. */
  lemma PrefixThenWindow(s: seq<Record>, m: int, count: int)
    requires m >= 0 && count > 0
    ensures s[..Min(m, |s|)] + s[Min(m, |s|)..Min(m + count, |s|)] == s[..Min(m + count, |s|)]
  {
  }

  /** Enough pages reproduce every record, once each and in order. */
  lemma AllPages(s: seq<Record>, count: int, n: nat)
    requires count > 0 && n * count >= |s|
    ensures Pages(s, count, n) == s
  {
    PagesPartition(s, count, n);
    assert s[..|s|] == s;
  }

  // ---------------------------------------------------------------------------
  // the whole query

  /** The result of `list(filter, pagination, sorting)` over `data`. */
  function Query(data: seq<Record>, filter: seq<FilterNode>, p: Pagination, sorting: Option<seq<SortEntry>>): (r: ListResult)
    ensures r.meta.hasNextPage.Some?
    ensures p.page >= 0 && p.countOnPage >= 0 ==> |r.data| <= p.countOnPage
  {
    PageOf(ApplySorts(Select(data, filter), sorting.GetOr([])), p)
  }

  /** Every listed record is a stored record that passes the filter. */
  lemma QueryRecordsMatch(data: seq<Record>, filter: seq<FilterNode>, p: Pagination, sorting: Option<seq<SortEntry>>)
    ensures forall x :: x in Query(data, filter, p, sorting).data ==> x in data && Matches(filter, x)
  {
    var selected := Select(data, filter);
    var sorted := ApplySorts(selected, sorting.GetOr([]));
    forall x | x in Query(data, filter, p, sorting).data ensures x in data && Matches(filter, x) {
      assert x in sorted;
      assert x in multiset(selected);
    }
  }

  /**
   * A page as large as the collection, at page 0, lists every matching
   * record, each as often as it is stored, and no other.
   */
  lemma QueryFirstPageComplete(data: seq<Record>, filter: seq<FilterNode>, count: int, sorting: Option<seq<SortEntry>>)
    requires count >= |data| && count > 0
    ensures var r := Query(data, filter, Pagination(0, count), sorting);
            (forall x :: x in data && Matches(filter, x) ==> x in r.data) && r.meta.hasNextPage == Some(false)
    ensures var r := Query(data, filter, Pagination(0, count), sorting);
            forall x :: multiset(r.data)[x] == if Matches(filter, x) then multiset(data)[x] else 0
  {
    var selected := Select(data, filter);
    var sorted := ApplySorts(selected, sorting.GetOr([]));
    assert Query(data, filter, Pagination(0, count), sorting).data == sorted by {
      PageWindow(sorted, Pagination(0, count));
      assert sorted[0..|sorted|] == sorted;
    }
    forall x | x in data && Matches(filter, x) ensures x in sorted {
      assert x in multiset(selected);
    }
  }

  // ---------------------------------------------------------------------------
  // lookup by key field

  /** `data.findIndex(item => item[keyField] === id)`. */
  function FindIndex(data: seq<Record>, keyField: string, id: Value): (k: int)
    ensures -1 <= k < |data|
    ensures k >= 0 ==> Get(data[k], keyField) == id
    ensures k >= 0 ==> forall j :: 0 <= j < k ==> Get(data[j], keyField) != id
    ensures k == -1 <==> forall j :: 0 <= j < |data| ==> Get(data[j], keyField) != id
    decreases |data|
  {
    if |data| == 0 then -1
    else if Get(data[0], keyField) == id then 0
    else
      var k := FindIndex(data[1..], keyField, id);
      if k == -1 then -1 else k + 1
  }
}
