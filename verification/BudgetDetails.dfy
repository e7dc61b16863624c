/** The nested breakdown of expense categories: groups, sub-groups and rows.

    `Build` grows the nesting in place, finding or adding a group and a sub-group for each
    category. The reference it is proved against, `Nested`, is a comprehension: the distinct
    group names in first-seen order, under each the distinct sub-group names in first-seen
    order, and under each of those the rows of exactly the categories with that key. */
module BudgetDetails {
  import opened Common
  import opened Text
  import opened BudgetSummary

  datatype DetailRow = DetailRow(name: string, amount: int, percentage: real)

  datatype SubGroup = SubGroup(name: Option<string>, rows: seq<DetailRow>)

  datatype TopGroup = TopGroup(name: string, subGroups: seq<SubGroup>)

  datatype Details = Details(groups: seq<TopGroup>, total: int)

  datatype Key = Key(top: string, sub: Option<string>)

  const SEPARATOR := " - "

  // ----- keys

  /** The first place from `i` on where the separator occurs. */
  function FindSeparator(s: string, i: nat): (found: Option<nat>)
    requires i <= |s|
    ensures found.Some? ==> i <= found.value <= |s| - |SEPARATOR| && OccursAt(s, SEPARATOR, found.value)
    ensures found.Some? ==> forall k: nat :: i <= k < found.value ==> !OccursAt(s, SEPARATOR, k)
    ensures found.None? ==> forall k: nat :: i <= k ==> !OccursAt(s, SEPARATOR, k)
    decreases |s| - i
  {
    if OccursAt(s, SEPARATOR, i) then Some(i)
    else if i == |s| then None
    else FindSeparator(s, i + 1)
  }

  /** Splits a group name at its first separator and trims both parts; an empty second part is none. */
  function SplitGroupName(groupName: string): Key {
    match FindSeparator(groupName, 0)
    case Some(i) =>
      var sub := Trim(groupName[i + |SEPARATOR|..]);
      Key(Trim(groupName[..i]), if sub == "" then None else Some(sub))
    case None =>
      Key(Trim(groupName), None)
  }

  /** Both parts of a key are trimmed, and a sub part is never empty. */
  lemma PartsTrimmed(groupName: string)
    ensures var key := SplitGroupName(groupName);
            && Trim(key.top) == key.top
            && (key.sub.Some? ==> key.sub.value != "" && Trim(key.sub.value) == key.sub.value)
  {
    hide Trim, FindSeparator, OccursAt;
    TrimTwice(groupName);
    var found := FindSeparator(groupName, 0);
    if found.Some? {
      TrimTwice(groupName[..found.value]);
      TrimTwice(groupName[found.value + |SEPARATOR|..]);
    }
  }

  /** The split is at the first separator: the parts are what stands before and behind it. */
  lemma SplitAtFirst(groupName: string, i: nat)
    requires OccursAt(groupName, SEPARATOR, i)
    requires forall k: nat | k < i :: !OccursAt(groupName, SEPARATOR, k)
    ensures var key := SplitGroupName(groupName);
            && key.top == Trim(groupName[..i])
            && (if key.sub.Some? then key.sub.value else "") == Trim(groupName[i + |SEPARATOR|..])
  {
    hide Trim, FindSeparator, OccursAt;
    assert FindSeparator(groupName, 0) == Some(i);
  }

  /** A name without the separator is all top part. */
  lemma SplitUnseparated(groupName: string)
    requires !Contains(groupName, SEPARATOR)
    ensures SplitGroupName(groupName) == Key(Trim(groupName), None)
  {
    hide Trim;
  }

  /** Padding around the separator does not matter: a name assembled from a trimmed top part,
      any whitespace, the separator, any whitespace and a trimmed sub part splits into those
      two parts. The top part must not itself run into an earlier separator. */
  lemma SplitAssembled(top: string, pad: string, pad': string, sub: string)
    requires Trim(top) == top && Trim(sub) == sub && sub != ""
    requires AllWhitespace(pad) && AllWhitespace(pad')
    requires !Contains(top + " ", SEPARATOR)
    ensures SplitGroupName(top + pad + SEPARATOR + pad' + sub) == Key(top, Some(sub))
  {
    hide Trim, IsWhitespace, FindSeparator, OccursAt, Contains;
    var name, at := top + pad + SEPARATOR + pad' + sub, |top + pad|;
    FirstSeparatorAt(top, pad, pad' + sub);
    assert top + pad + SEPARATOR + (pad' + sub) == name;
    assert name[..at] == top + pad == "" + top + pad;
    assert name[at + |SEPARATOR|..] == pad' + sub == pad' + sub + "";
    TrimPadded("", top, pad);
    TrimPadded(pad', sub, "");
  }

  lemma FirstSeparatorAt(top: string, pad: string, rest: string)
    requires AllWhitespace(pad) && !Contains(top + " ", SEPARATOR)
    ensures FindSeparator(top + pad + SEPARATOR + rest, 0) == Some(|top + pad|)
  {
    hide AllWhitespace, FindSeparator, Contains;
    var name, at := top + pad + SEPARATOR + rest, |top + pad|;
    assert OccursAt(name, SEPARATOR, at);
    hide OccursAt;
    forall k: nat | k < at
      ensures !OccursAt(name, SEPARATOR, k)
    {
      NoEarlierSeparator(top, pad, rest, k);
    }
  }

  lemma NoEarlierSeparator(top: string, pad: string, rest: string, k: nat)
    requires AllWhitespace(pad) && k < |top + pad|
    requires !Contains(top + " ", SEPARATOR)
    ensures !OccursAt(top + pad + SEPARATOR + rest, SEPARATOR, k)
  {
    var name := top + pad + SEPARATOR + rest;
    assert name[|top + pad|] == ' ' && !IsWhitespace('-');
    assert forall i :: |top| <= i < |top + pad| ==> name[i] == pad[i - |top|];
    if OccursAt(name, SEPARATOR, k) {
      assert name[k + 1] == name[k..k + 3][1] == '-';
      if k + 1 < |top| {
        assert forall i :: k <= i < k + 3 ==> (top + " ")[i] == name[i] by {
          assert name[k + 2] == name[k..k + 3][2] == ' ';
        }
        assert (top + " ")[k..k + 3] == name[k..k + 3];
        assert OccursAt(top + " ", SEPARATOR, k);
      }
    }
  }

  function KeyOf(category: ExpenseCategory): Key {
    SplitGroupName(category.groupName)
  }

  function RowOf(category: ExpenseCategory, income: int): (row: DetailRow)
    ensures row.name == category.name && row.amount == category.projectedAmount
    ensures income == 0 ==> row.percentage == 0.0
  {
    var percentage := if income == 0 then 0.0 else category.projectedAmount as real / income as real;
    DetailRow(category.name, category.projectedAmount, percentage)
  }

  /** A row's percentage of the income is its amount; of no income it is nothing. */
  lemma RowPercentage(category: ExpenseCategory, income: int)
    ensures RowOf(category, income).percentage * income as real == if income == 0 then 0.0 else category.projectedAmount as real
  {
  }

  // ----- the reference

  /** The distinct elements of a sequence in the order in which they first appear. */
  function FirstSeen<T(==, !new)>(s: seq<T>): (r: seq<T>)
    ensures forall x :: x in r <==> x in s
    ensures forall i, j :: 0 <= i < j < |r| ==> r[i] != r[j]
    ensures forall i, j :: 0 <= i < j < |r| ==> SeenBefore(s, r[i], r[j])
  {
    if s == [] then []
    else
      var before, last := s[..|s| - 1], s[|s| - 1];
      var front := FirstSeen(before);
      assert s == before + [last];
      assert forall x, y :: SeenBefore(before, x, y) ==> SeenBefore(s, x, y) by {
        SeenBeforeStays(before, last);
      }
      if last in front then front
      else
        NewIsSeenLast(before, last);
        front + [last]
  }

  /** Whether `x` occurs in a sequence before `y` first does. */
  predicate SeenBefore<T(==)>(s: seq<T>, x: T, y: T) {
    exists p :: 0 <= p < |s| && s[p] == x && y !in s[..p + 1]
  }

  lemma SeenBeforeStays<T(!new)>(s: seq<T>, last: T)
    ensures forall x, y :: SeenBefore(s, x, y) ==> SeenBefore(s + [last], x, y)
  {
    forall x, y | SeenBefore(s, x, y)
      ensures SeenBefore(s + [last], x, y)
    {
      var p :| 0 <= p < |s| && s[p] == x && y !in s[..p + 1];
      assert (s + [last])[..p + 1] == s[..p + 1] && (s + [last])[p] == x;
    }
  }

  lemma NewIsSeenLast<T(!new)>(s: seq<T>, last: T)
    requires last !in s
    ensures forall x <- s :: SeenBefore(s + [last], x, last)
  {
    forall x <- s
      ensures SeenBefore(s + [last], x, last)
    {
      var p :| 0 <= p < |s| && s[p] == x;
      assert (s + [last])[..p + 1] == s[..p + 1] && (s + [last])[p] == x;
    }
  }

  function Tops(categories: seq<ExpenseCategory>): seq<string> {
    if categories == [] then []
    else Tops(categories[..|categories| - 1]) + [KeyOf(categories[|categories| - 1]).top]
  }

  function SubsUnder(categories: seq<ExpenseCategory>, top: string): seq<Option<string>> {
    if categories == [] then []
    else
      var key := KeyOf(categories[|categories| - 1]);
      SubsUnder(categories[..|categories| - 1], top) + (if key.top == top then [key.sub] else [])
  }

  /** The rows of the categories with a given key, in input order. */
  function RowsFor(categories: seq<ExpenseCategory>, key: Key, income: int): seq<DetailRow> {
    if categories == [] then []
    else
      var last := categories[|categories| - 1];
      RowsFor(categories[..|categories| - 1], key, income) + (if KeyOf(last) == key then [RowOf(last, income)] else [])
  }

  function SubGroupsOf(categories: seq<ExpenseCategory>, top: string, income: int): (subs: seq<SubGroup>)
    ensures |subs| == |FirstSeen(SubsUnder(categories, top))|
  {
    var names := FirstSeen(SubsUnder(categories, top));
    seq(|names|, i requires 0 <= i < |names| => SubGroup(names[i], RowsFor(categories, Key(top, names[i]), income)))
  }

  function Nested(categories: seq<ExpenseCategory>, income: int): (groups: seq<TopGroup>)
    ensures |groups| == |FirstSeen(Tops(categories))|
  {
    var names := FirstSeen(Tops(categories));
    seq(|names|, i requires 0 <= i < |names| => TopGroup(names[i], SubGroupsOf(categories, names[i], income)))
  }

  predicate HasNamedSub(group: TopGroup) {
    exists s <- group.subGroups :: s.name.Some?
  }

  function Filter(groups: seq<TopGroup>, named: bool): seq<TopGroup> {
    if groups == [] then []
    else
      var last := groups[|groups| - 1];
      Filter(groups[..|groups| - 1], named) + (if HasNamedSub(last) == named then [last] else [])
  }

  function AllRows(groups: seq<TopGroup>): seq<DetailRow> {
    if groups == [] then [] else AllRows(groups[..|groups| - 1]) + SubRows(groups[|groups| - 1].subGroups)
  }

  function SubRows(subs: seq<SubGroup>): seq<DetailRow> {
    if subs == [] then [] else SubRows(subs[..|subs| - 1]) + subs[|subs| - 1].rows
  }

  function RowsOf(categories: seq<ExpenseCategory>, income: int): seq<DetailRow> {
    if categories == [] then []
    else RowsOf(categories[..|categories| - 1], income) + [RowOf(categories[|categories| - 1], income)]
  }

  // ----- the program

  /** The first place of `x`, or the length of the sequence. */
  function FirstIndex<T(==)>(s: seq<T>, x: T): (i: nat)
    ensures i <= |s| && (i < |s| ==> s[i] == x)
    ensures forall j :: 0 <= j < i ==> s[j] != x
  {
    if s == [] || s[0] == x then 0
    else
      var rest := FirstIndex(s[1..], x);
      assert forall j :: 0 < j < rest + 1 ==> s[j] == s[1..][j - 1];
      1 + rest
  }

  function GroupNames(groups: seq<TopGroup>): (names: seq<string>)
    ensures |names| == |groups| && forall i :: 0 <= i < |groups| ==> names[i] == groups[i].name
  {
    seq(|groups|, i requires 0 <= i < |groups| => groups[i].name)
  }

  function SubNames(subs: seq<SubGroup>): (names: seq<Option<string>>)
    ensures |names| == |subs| && forall i :: 0 <= i < |subs| ==> names[i] == subs[i].name
  {
    seq(|subs|, i requires 0 <= i < |subs| => subs[i].name)
  }

  method Build(categories: seq<ExpenseCategory>, income: int) returns (details: Details)
    ensures var nested := Nested(categories, income);
            details.groups == Filter(nested, true) + Filter(nested, false)
    ensures multiset(AllRows(details.groups)) == multiset(RowsOf(categories, income))
    ensures details.total == SumAmounts(categories) == SumOf(AllRows(details.groups))
    ensures forall i, j :: 0 <= i < j < |details.groups| && (exists sub <- details.groups[j].subGroups :: sub.name.Some?) ==>
              exists sub <- details.groups[i].subGroups :: sub.name.Some?
    ensures forall i, j :: 0 <= i < j < |details.groups| && (HasNamedSub(details.groups[i]) <==> HasNamedSub(details.groups[j])) ==>
              SeenBefore(Tops(categories), details.groups[i].name, details.groups[j].name)
  {
    hide Nested, KeyOf, RowOf, Filter, AllRows, SumOf, SumAmounts, RowsOf, FirstIndex, GroupNames, SubNames, Place;
    var groups: seq<TopGroup> := [];
    NothingNested(income);
    for n := 0 to |categories|
      invariant groups == Nested(categories[..n], income)
      invariant multiset(AllRows(groups)) == multiset(RowsOf(categories[..n], income))
      invariant SumOf(AllRows(groups)) == SumAmounts(categories[..n])
    {
      var category := categories[n];
      var key := KeyOf(category);
      ghost var before := groups;
      var g := FirstIndex(GroupNames(groups), key.top);
      if g == |groups| {
        groups := groups + [TopGroup(key.top, [])];
      }
      var subs := groups[g].subGroups;
      var s := FirstIndex(SubNames(subs), key.sub);
      if s == |subs| {
        subs := subs + [SubGroup(key.sub, [])];
      }
      subs := subs[s := SubGroup(key.sub, subs[s].rows + [RowOf(category, income)])];
      groups := groups[g := TopGroup(key.top, subs)];
      PlacedInPlace(before, key, RowOf(category, income));
      PlaceAddsRow(before, key, RowOf(category, income));
      NestedStep(categories, n, income);
    }
    assert categories[..|categories|] == categories;
    PartitionKeepsRows(groups);
    NamedFirst(categories, income);
    details := Details(Filter(groups, true) + Filter(groups, false), SumAmounts(categories));
  }

  // ----- proofs

  function SumOf(rows: seq<DetailRow>): int {
    if rows == [] then 0 else SumOf(rows[..|rows| - 1]) + rows[|rows| - 1].amount
  }

  /** The sub-groups after one row is added, as a value. */
  function PlaceSub(subs: seq<SubGroup>, name: Option<string>, row: DetailRow): seq<SubGroup> {
    var s := FirstIndex(SubNames(subs), name);
    if s == |subs| then subs + [SubGroup(name, [row])]
    else subs[s := SubGroup(name, subs[s].rows + [row])]
  }

  /** The groups after one row is added, as a value. */
  function Place(groups: seq<TopGroup>, key: Key, row: DetailRow): seq<TopGroup> {
    var g := FirstIndex(GroupNames(groups), key.top);
    if g == |groups| then groups + [TopGroup(key.top, PlaceSub([], key.sub, row))]
    else groups[g := TopGroup(key.top, PlaceSub(groups[g].subGroups, key.sub, row))]
  }

  /** Placing a row is adding an empty group and an empty sub-group where there are none, and then
      the row. */
  lemma PlacedInPlace(groups: seq<TopGroup>, key: Key, row: DetailRow)
    ensures var g := FirstIndex(GroupNames(groups), key.top);
            var withGroup := if g == |groups| then groups + [TopGroup(key.top, [])] else groups;
            var subs := withGroup[g].subGroups;
            var s := FirstIndex(SubNames(subs), key.sub);
            var withSub := if s == |subs| then subs + [SubGroup(key.sub, [])] else subs;
            Place(groups, key, row) ==
            withGroup[g := TopGroup(key.top, withSub[s := SubGroup(key.sub, withSub[s].rows + [row])])]
  {
    hide FirstIndex, SubNames, GroupNames, PlaceSub;
    var g := FirstIndex(GroupNames(groups), key.top);
    PlacedSubInPlace(if g == |groups| then [] else groups[g].subGroups, key.sub, row);
    if g == |groups| {
      var withGroup := groups + [TopGroup(key.top, [])];
      assert withGroup[g].subGroups == [];
      assert forall group :: withGroup[g := group] == groups + [group];
    }
  }

  lemma PlacedSubInPlace(subs: seq<SubGroup>, name: Option<string>, row: DetailRow)
    ensures var s := FirstIndex(SubNames(subs), name);
            var withSub := if s == |subs| then subs + [SubGroup(name, [])] else subs;
            PlaceSub(subs, name, row) == withSub[s := SubGroup(name, withSub[s].rows + [row])]
  {
    hide FirstIndex, SubNames;
    assert [] + [row] == [row];
  }

  lemma NothingNested(income: int)
    ensures Nested([], income) == [] && AllRows([]) == [] && SumOf([]) == 0
    ensures SumAmounts([]) == 0 && RowsOf([], income) == []
  {
  }

  lemma {:induction false} RowsForAbsent(categories: seq<ExpenseCategory>, key: Key, income: int)
    requires key.sub !in SubsUnder(categories, key.top)
    ensures RowsFor(categories, key, income) == []
  {
    hide KeyOf, RowOf;
    if categories != [] {
      assert forall x <- SubsUnder(categories[..|categories| - 1], key.top) :: x in SubsUnder(categories, key.top);
      RowsForAbsent(categories[..|categories| - 1], key, income);
    }
  }

  lemma {:induction false} RowsForPresent(categories: seq<ExpenseCategory>, key: Key, income: int)
    requires key.sub in SubsUnder(categories, key.top)
    ensures RowsFor(categories, key, income) != []
  {
    hide KeyOf, RowOf;
    if categories != [] && KeyOf(categories[|categories| - 1]) != key {
      RowsForPresent(categories[..|categories| - 1], key, income);
    }
  }

  lemma {:induction false} SubsUnderAbsent(categories: seq<ExpenseCategory>, top: string)
    ensures top in Tops(categories) <==> SubsUnder(categories, top) != []
  {
    hide KeyOf;
    if categories != [] {
      SubsUnderAbsent(categories[..|categories| - 1], top);
    }
  }

  lemma PushCategory(front: seq<ExpenseCategory>, last: ExpenseCategory, top: string, income: int)
    ensures Tops(front + [last]) == Tops(front) + [KeyOf(last).top]
    ensures SubsUnder(front + [last], top) == SubsUnder(front, top) + (if KeyOf(last).top == top then [KeyOf(last).sub] else [])
    ensures forall sub :: RowsFor(front + [last], Key(top, sub), income)
                       == RowsFor(front, Key(top, sub), income) + (if KeyOf(last) == Key(top, sub) then [RowOf(last, income)] else [])
  {
    hide KeyOf, RowOf;
    assert (front + [last])[..|front|] == front;
  }

  lemma FirstSeenPush<T(!new)>(s: seq<T>, x: T)
    ensures FirstSeen(s + [x]) == if x in FirstSeen(s) then FirstSeen(s) else FirstSeen(s) + [x]
  {
    assert (s + [x])[..|s|] == s;
  }

  /** Adding a category of a group is adding its row to the right sub-group. */
  lemma SubGroupsStep(front: seq<ExpenseCategory>, last: ExpenseCategory, income: int)
    ensures var key := KeyOf(last);
            SubGroupsOf(front + [last], key.top, income)
              == PlaceSub(SubGroupsOf(front, key.top, income), key.sub, RowOf(last, income))
  {
    hide KeyOf, RowOf, RowsFor, SubsUnder, FirstSeen, FirstIndex, SubNames;
    var key := KeyOf(last);
    var names, subs := FirstSeen(SubsUnder(front, key.top)), SubGroupsOf(front, key.top, income);
    PushCategory(front, last, key.top, income);
    FirstSeenPush(SubsUnder(front, key.top), key.sub);
    assert SubNames(subs) == names;
    FirstIndexOfDistinct(names, key.sub);
    if key.sub !in names {
      RowsForAbsent(front, key, income);
      assert [] + [RowOf(last, income)] == [RowOf(last, income)];
    }
    var grown, placed := SubGroupsOf(front + [last], key.top, income), PlaceSub(subs, key.sub, RowOf(last, income));
    forall i | 0 <= i < |grown|
      ensures grown[i] == placed[i]
    {
      assert i < |names| && names[i] != key.sub ==> Key(key.top, names[i]) != key;
    }
  }

  /** Among distinct elements the first place of one is its only place. */
  lemma FirstIndexOfDistinct<T>(s: seq<T>, x: T)
    requires forall i, j :: 0 <= i < j < |s| ==> s[i] != s[j]
    ensures FirstIndex(s, x) < |s| <==> x in s
    ensures forall j :: 0 <= j < |s| && j != FirstIndex(s, x) ==> s[j] != x
  {
    hide FirstIndex;
    var i := FirstIndex(s, x);
    if i < |s| {
      assert s[i] == x;
    }
  }

  lemma OtherGroupKept(front: seq<ExpenseCategory>, last: ExpenseCategory, top: string, income: int)
    requires KeyOf(last).top != top
    ensures SubGroupsOf(front + [last], top, income) == SubGroupsOf(front, top, income)
  {
    hide KeyOf, RowOf, RowsFor, SubsUnder, FirstSeen;
    PushCategory(front, last, top, income);
    assert SubsUnder(front + [last], top) == SubsUnder(front, top);
    assert forall sub :: RowsFor(front + [last], Key(top, sub), income) == RowsFor(front, Key(top, sub), income);
  }

  lemma GrownGroup(front: seq<ExpenseCategory>, last: ExpenseCategory, income: int, i: nat)
    requires i < |FirstSeen(Tops(front + [last]))|
    ensures var placed := Place(Nested(front, income), KeyOf(last), RowOf(last, income));
            i < |placed| && Nested(front + [last], income)[i] == placed[i]
  {
    hide KeyOf, RowOf, SubGroupsOf, PlaceSub, FirstSeen, Tops, SubsUnder, FirstIndex, GroupNames;
    var key := KeyOf(last);
    var names, groups := FirstSeen(Tops(front)), Nested(front, income);
    PushCategory(front, last, key.top, income);
    FirstSeenPush(Tops(front), key.top);
    assert GroupNames(groups) == names;
    FirstIndexOfDistinct(names, key.top);
    if i < |names| && names[i] != key.top {
      OtherGroupKept(front, last, names[i], income);
    } else {
      SubGroupsStep(front, last, income);
      if i == |names| {
        SubsUnderAbsent(front, key.top);
        NoSubGroups(front, key.top, income);
      }
    }
  }

  /** One more category in the reference is one more row placed. */
  lemma NestedGrows(front: seq<ExpenseCategory>, last: ExpenseCategory, income: int)
    ensures Nested(front + [last], income) == Place(Nested(front, income), KeyOf(last), RowOf(last, income))
  {
    var grown, placed := Nested(front + [last], income), Place(Nested(front, income), KeyOf(last), RowOf(last, income));
    PlacedLength(front, last, income);
    hide *;
    forall i | 0 <= i < |grown|
      ensures grown[i] == placed[i]
    {
      GrownGroup(front, last, income, i);
    }
  }

  lemma PlacedLength(front: seq<ExpenseCategory>, last: ExpenseCategory, income: int)
    ensures |Nested(front + [last], income)| == |Place(Nested(front, income), KeyOf(last), RowOf(last, income))|
  {
    hide KeyOf, RowOf, SubGroupsOf, PlaceSub, FirstSeen, Tops, SubsUnder, FirstIndex, GroupNames;
    var names := FirstSeen(Tops(front));
    PushCategory(front, last, KeyOf(last).top, income);
    FirstSeenPush(Tops(front), KeyOf(last).top);
    assert GroupNames(Nested(front, income)) == names;
    FirstIndexOfDistinct(names, KeyOf(last).top);
  }

  lemma NoSubGroups(categories: seq<ExpenseCategory>, top: string, income: int)
    requires SubsUnder(categories, top) == []
    ensures SubGroupsOf(categories, top, income) == []
  {
  }

  lemma NestedStep(categories: seq<ExpenseCategory>, n: nat, income: int)
    requires n < |categories|
    ensures Nested(categories[..n + 1], income)
         == Place(Nested(categories[..n], income), KeyOf(categories[n]), RowOf(categories[n], income))
    ensures RowsOf(categories[..n + 1], income) == RowsOf(categories[..n], income) + [RowOf(categories[n], income)]
    ensures SumAmounts(categories[..n + 1]) == SumAmounts(categories[..n]) + categories[n].projectedAmount
    ensures RowOf(categories[n], income).amount == categories[n].projectedAmount
  {
    hide KeyOf, Nested, Place;
    assert categories[..n + 1] == categories[..n] + [categories[n]];
    assert categories[..n + 1][..n] == categories[..n];
    NestedGrows(categories[..n], categories[n], income);
  }

  lemma {:induction false} PlaceSubInserts(subs: seq<SubGroup>, s: nat, name: Option<string>, row: DetailRow)
    returns (before: seq<DetailRow>, after: seq<DetailRow>)
    requires s < |subs|
    ensures SubRows(subs) == before + after
    ensures SubRows(subs[s := SubGroup(name, subs[s].rows + [row])]) == before + [row] + after
  {
    var front, last := subs[..|subs| - 1], subs[|subs| - 1];
    var updated := subs[s := SubGroup(name, subs[s].rows + [row])];
    if s == |front| {
      assert updated[..|front|] == front;
      before, after := SubRows(subs), [];
    } else {
      assert updated[..|front|] == front[s := SubGroup(name, subs[s].rows + [row])];
      before, after := PlaceSubInserts(front, s, name, row);
      after := after + last.rows;
    }
  }

  lemma {:induction false} PlaceInserts(groups: seq<TopGroup>, g: nat, name: string, subs: seq<SubGroup>,
                                        inner: seq<DetailRow>, inner': seq<DetailRow>, row: DetailRow)
    returns (before: seq<DetailRow>, after: seq<DetailRow>)
    requires g < |groups|
    requires SubRows(groups[g].subGroups) == inner + inner' && SubRows(subs) == inner + [row] + inner'
    ensures AllRows(groups) == before + after
    ensures AllRows(groups[g := TopGroup(name, subs)]) == before + [row] + after
  {
    hide SubRows;
    var front, last := groups[..|groups| - 1], groups[|groups| - 1];
    var updated := groups[g := TopGroup(name, subs)];
    if g == |front| {
      assert updated[..|front|] == front;
      before, after := AllRows(front) + inner, inner';
    } else {
      assert updated[..|front|] == front[g := TopGroup(name, subs)];
      before, after := PlaceInserts(front, g, name, subs, inner, inner', row);
      after := after + SubRows(last.subGroups);
    }
  }

  lemma SubRowsPush(subs: seq<SubGroup>, sub: SubGroup)
    ensures SubRows(subs + [sub]) == SubRows(subs) + sub.rows
  {
    assert (subs + [sub])[..|subs|] == subs;
  }

  lemma AllRowsPush(groups: seq<TopGroup>, group: TopGroup)
    ensures AllRows(groups + [group]) == AllRows(groups) + SubRows(group.subGroups)
  {
    assert (groups + [group])[..|groups|] == groups;
  }

  lemma PlaceSubSplits(subs: seq<SubGroup>, name: Option<string>, row: DetailRow)
    returns (before: seq<DetailRow>, after: seq<DetailRow>)
    ensures SubRows(subs) == before + after && SubRows(PlaceSub(subs, name, row)) == before + [row] + after
  {
    hide SubRows;
    var s := FirstIndex(SubNames(subs), name);
    if s == |subs| {
      SubRowsPush(subs, SubGroup(name, [row]));
      before, after := SubRows(subs), [];
    } else {
      before, after := PlaceSubInserts(subs, s, name, row);
    }
  }

  /** Placing a row adds that row and disturbs no other. */
  lemma PlaceAddsRow(groups: seq<TopGroup>, key: Key, row: DetailRow)
    ensures multiset(AllRows(Place(groups, key, row))) == multiset(AllRows(groups)) + multiset{row}
    ensures SumOf(AllRows(Place(groups, key, row))) == SumOf(AllRows(groups)) + row.amount
  {
    hide AllRows, SubRows, PlaceSub, SumOf;
    var g := FirstIndex(GroupNames(groups), key.top);
    var before, after;
    if g == |groups| {
      var a, b := PlaceSubSplits([], key.sub, row);
      assert a + b == [] by {
        NoSubRows();
      }
      AllRowsPush(groups, TopGroup(key.top, PlaceSub([], key.sub, row)));
      before, after := AllRows(groups), [];
      assert a == [] && b == [];
      assert AllRows(Place(groups, key, row)) == before + [row] + after;
    } else {
      var a, b := PlaceSubSplits(groups[g].subGroups, key.sub, row);
      before, after := PlaceInserts(groups, g, key.top, PlaceSub(groups[g].subGroups, key.sub, row), a, b, row);
    }
    SumOfConcat(before, after);
    SumOfConcat(before + [row], after);
    SumOfPush(before, row);
    assert AllRows(groups) == before + after;
  }

  lemma NoSubRows()
    ensures SubRows([]) == []
  {
  }

  lemma SumOfPush(rows: seq<DetailRow>, row: DetailRow)
    ensures SumOf(rows + [row]) == SumOf(rows) + row.amount
  {
    assert (rows + [row])[..|rows|] == rows;
  }

  lemma {:induction false} SumOfConcat(a: seq<DetailRow>, b: seq<DetailRow>)
    ensures SumOf(a + b) == SumOf(a) + SumOf(b)
  {
    if b == [] {
      assert a + b == a;
    } else {
      assert (a + b)[..|a + b| - 1] == a + b[..|b| - 1];
      SumOfConcat(a, b[..|b| - 1]);
    }
  }

  lemma {:induction false} AllRowsConcat(a: seq<TopGroup>, b: seq<TopGroup>)
    ensures AllRows(a + b) == AllRows(a) + AllRows(b)
  {
    hide SubRows;
    if b == [] {
      assert a + b == a;
    } else {
      assert (a + b)[..|a + b| - 1] == a + b[..|b| - 1];
      AllRowsConcat(a, b[..|b| - 1]);
    }
  }

  lemma {:induction false} FilterKeeps(groups: seq<TopGroup>, group: TopGroup)
    ensures group in groups <==> group in Filter(groups, true) + Filter(groups, false)
  {
    hide HasNamedSub;
    if groups != [] {
      FilterKeeps(groups[..|groups| - 1], group);
      assert groups == groups[..|groups| - 1] + [groups[|groups| - 1]];
    }
  }

  lemma {:induction false} RowsForExactly(categories: seq<ExpenseCategory>, key: Key, income: int)
    ensures forall c <- categories :: SplitGroupName(c.groupName) == key ==> RowOf(c, income) in RowsFor(categories, key, income)
    ensures forall row <- RowsFor(categories, key, income) ::
              exists c <- categories :: SplitGroupName(c.groupName) == key && row == RowOf(c, income)
  {
    hide SplitGroupName, RowOf;
    if categories != [] {
      RowsForExactly(categories[..|categories| - 1], key, income);
      assert categories == categories[..|categories| - 1] + [categories[|categories| - 1]];
    }
  }

  /** The key of a category is among the names of the groups and of their sub-groups. */
  lemma {:induction false} KeyListed(categories: seq<ExpenseCategory>, c: ExpenseCategory)
    requires c in categories
    ensures var key := SplitGroupName(c.groupName); key.top in Tops(categories) && key.sub in SubsUnder(categories, key.top)
  {
    hide SplitGroupName;
    if c != categories[|categories| - 1] {
      assert categories == categories[..|categories| - 1] + [categories[|categories| - 1]];
      KeyListed(categories[..|categories| - 1], c);
    }
  }

  /** Every category has its row under its own group and sub-group names. */
  lemma EveryCategoryPlaced(categories: seq<ExpenseCategory>, income: int)
    ensures var groups := Filter(Nested(categories, income), true) + Filter(Nested(categories, income), false);
            forall c <- categories :: exists group <- groups :: exists sub <- group.subGroups ::
              SplitGroupName(c.groupName) == Key(group.name, sub.name) && RowOf(c, income) in sub.rows
  {
    hide Nested, Filter, SplitGroupName, RowOf;
    var nested := Nested(categories, income);
    forall c <- categories
      ensures exists group <- Filter(nested, true) + Filter(nested, false) :: exists sub <- group.subGroups ::
                SplitGroupName(c.groupName) == Key(group.name, sub.name) && RowOf(c, income) in sub.rows
    {
      var group, sub := PlaceOf(categories, income, c);
      FilterKeeps(nested, group);
    }
  }

  lemma PlaceOf(categories: seq<ExpenseCategory>, income: int, c: ExpenseCategory) returns (group: TopGroup, sub: SubGroup)
    requires c in categories
    ensures group in Nested(categories, income) && sub in group.subGroups
    ensures SplitGroupName(c.groupName) == Key(group.name, sub.name) && RowOf(c, income) in sub.rows
  {
    hide SplitGroupName, RowOf, Tops, SubsUnder, RowsFor, FirstSeen;
    var key := SplitGroupName(c.groupName);
    KeyListed(categories, c);
    RowsForExactly(categories, key, income);
    var names, subNames := FirstSeen(Tops(categories)), FirstSeen(SubsUnder(categories, key.top));
    var i :| 0 <= i < |names| && names[i] == key.top;
    var j :| 0 <= j < |subNames| && subNames[j] == key.sub;
    group := Nested(categories, income)[i];
    sub := group.subGroups[j];
  }

  /** Every row stands for a category of just those names. */
  lemma EveryRowPlaced(categories: seq<ExpenseCategory>, income: int)
    ensures var groups := Filter(Nested(categories, income), true) + Filter(Nested(categories, income), false);
            forall group <- groups :: forall sub <- group.subGroups :: forall row <- sub.rows ::
              exists c <- categories :: SplitGroupName(c.groupName) == Key(group.name, sub.name) && row == RowOf(c, income)
  {
    hide Nested, Filter, SplitGroupName, RowOf, RowsFor;
    var nested := Nested(categories, income);
    forall group, sub, row | group in Filter(nested, true) + Filter(nested, false) && sub in group.subGroups && row in sub.rows
      ensures exists c <- categories :: SplitGroupName(c.groupName) == Key(group.name, sub.name) && row == RowOf(c, income)
    {
      FilterKeeps(nested, group);
      NestedShape(categories, income);
      RowsForExactly(categories, Key(group.name, sub.name), income);
    }
  }

  /** What is filtered has the asked-for kind, and keeps its order. */
  lemma {:induction false} FilterInOrder(groups: seq<TopGroup>, named: bool, i: nat, j: nat) returns (p: nat, q: nat)
    requires i < j < |Filter(groups, named)|
    ensures p < q < |groups| && Filter(groups, named)[i] == groups[p] && Filter(groups, named)[j] == groups[q]
  {
    hide HasNamedSub;
    var front := groups[..|groups| - 1];
    if j < |Filter(front, named)| {
      p, q := FilterInOrder(front, named, i, j);
    } else {
      p := FilterFrom(front, named, i);
      q := |groups| - 1;
    }
  }

  lemma {:induction false} FilterFrom(groups: seq<TopGroup>, named: bool, i: nat) returns (p: nat)
    requires i < |Filter(groups, named)|
    ensures p < |groups| && Filter(groups, named)[i] == groups[p] && HasNamedSub(groups[p]) == named
  {
    hide HasNamedSub;
    var front := groups[..|groups| - 1];
    if i < |Filter(front, named)| {
      p := FilterFrom(front, named, i);
    } else {
      p := |groups| - 1;
    }
  }

  /** Groups with a named sub-group come before those without, and among each kind a group comes
      before those whose name is seen later. */
  lemma NamedFirst(categories: seq<ExpenseCategory>, income: int)
    ensures var nested := Nested(categories, income);
            var groups := Filter(nested, true) + Filter(nested, false);
            && (forall i, j :: 0 <= i < j < |groups| && (exists sub <- groups[j].subGroups :: sub.name.Some?) ==>
                  exists sub <- groups[i].subGroups :: sub.name.Some?)
            && (forall i, j :: 0 <= i < j < |groups| && (HasNamedSub(groups[i]) <==> HasNamedSub(groups[j])) ==>
                  SeenBefore(Tops(categories), groups[i].name, groups[j].name))
  {
    hide Nested, Filter, HasNamedSub, SeenBefore, Tops;
    var nested := Nested(categories, income);
    var groups, k := Filter(nested, true) + Filter(nested, false), |Filter(nested, true)|;
    forall i | 0 <= i < |groups|
      ensures HasNamedSub(groups[i]) == (i < k)
    {
      var p := FilterFrom(nested, i < k, if i < k then i else i - k);
    }
    forall i, j | 0 <= i < j < |groups| && (HasNamedSub(groups[i]) <==> HasNamedSub(groups[j]))
      ensures SeenBefore(Tops(categories), groups[i].name, groups[j].name)
    {
      var shift := if i < k then 0 else k;
      var p, q := FilterInOrder(nested, i < k, i - shift, j - shift);
      NestedInOrder(categories, income, p, q);
    }
    NamedSubExists(groups);
  }

  lemma NamedSubExists(groups: seq<TopGroup>)
    ensures forall i :: 0 <= i < |groups| ==> (HasNamedSub(groups[i]) <==> exists sub <- groups[i].subGroups :: sub.name.Some?)
  {
  }

  lemma NestedInOrder(categories: seq<ExpenseCategory>, income: int, p: nat, q: nat)
    requires p < q < |Nested(categories, income)|
    ensures SeenBefore(Tops(categories), Nested(categories, income)[p].name, Nested(categories, income)[q].name)
  {
    hide Tops, SubGroupsOf, SeenBefore;
  }

  lemma FilterPush(groups: seq<TopGroup>)
    requires groups != []
    ensures var front, last := groups[..|groups| - 1], groups[|groups| - 1];
            && Filter(groups, HasNamedSub(last)) == Filter(front, HasNamedSub(last)) + [last]
            && Filter(groups, !HasNamedSub(last)) == Filter(front, !HasNamedSub(last))
  {
    hide HasNamedSub;
  }

  /** Moving the unnamed groups to the end loses no row. */
  lemma {:induction false} PartitionKeepsRows(groups: seq<TopGroup>)
    ensures var parted := Filter(groups, true) + Filter(groups, false);
            && multiset(AllRows(parted)) == multiset(AllRows(groups))
            && SumOf(AllRows(parted)) == SumOf(AllRows(groups))
  {
    hide SumOf, SubRows, HasNamedSub, AllRows;
    AllRowsConcat(Filter(groups, true), Filter(groups, false));
    SumOfConcat(AllRows(Filter(groups, true)), AllRows(Filter(groups, false)));
    if groups != [] {
      var front, last := groups[..|groups| - 1], groups[|groups| - 1];
      PartitionKeepsRows(front);
      AllRowsConcat(Filter(front, true), Filter(front, false));
      SumOfConcat(AllRows(Filter(front, true)), AllRows(Filter(front, false)));
      assert front + [last] == groups;
      AllRowsPush(front, last);
      SumOfConcat(AllRows(front), SubRows(last.subGroups));
      var kept, other := Filter(front, HasNamedSub(last)), Filter(front, !HasNamedSub(last));
      FilterPush(groups);
      hide Filter;
      AllRowsPush(kept, last);
      SumOfConcat(AllRows(kept), SubRows(last.subGroups));
    } else {
      assert [] + [] == groups;
    }
  }

  /** Group names are distinct, sub-group names are distinct within a group, no group and no
      sub-group is empty, and every sub-group holds exactly the rows of its key in input order. */
  lemma NestedShape(categories: seq<ExpenseCategory>, income: int)
    ensures var groups := Nested(categories, income);
            && (forall i, j :: 0 <= i < j < |groups| ==> groups[i].name != groups[j].name)
            && forall i :: 0 <= i < |groups| ==>
                 var subs := groups[i].subGroups;
                 && subs != []
                 && (forall j, k :: 0 <= j < k < |subs| ==> subs[j].name != subs[k].name)
                 && forall j :: 0 <= j < |subs| ==>
                      subs[j].rows == RowsFor(categories, Key(groups[i].name, subs[j].name), income) != []
  {
    hide RowsFor, Tops, SubsUnder, KeyOf;
    var groups, names := Nested(categories, income), FirstSeen(Tops(categories));
    forall i | 0 <= i < |groups|
      ensures var subs := groups[i].subGroups;
              && subs != []
              && (forall j, k :: 0 <= j < k < |subs| ==> subs[j].name != subs[k].name)
              && forall j :: 0 <= j < |subs| ==>
                   subs[j].rows == RowsFor(categories, Key(groups[i].name, subs[j].name), income) != []
    {
      assert names[i] in names;
      SubsUnderAbsent(categories, names[i]);
      var subNames := FirstSeen(SubsUnder(categories, names[i]));
      assert subNames != [] by {
        assert SubsUnder(categories, names[i])[0] in SubsUnder(categories, names[i]);
      }
      forall j | 0 <= j < |subNames|
        ensures RowsFor(categories, Key(names[i], subNames[j]), income) != []
      {
        assert subNames[j] in subNames;
        RowsForPresent(categories, Key(names[i], subNames[j]), income);
      }
    }
  }
}
