/**
 * The second sign-up step: the interest domains grouped in collapsible
 * categories, the flat row list the picker shows, the selection the
 * activity keeps, and the finish button.  Domain objects are identified by
 * their position (category index, domain index), as the activity's
 * `List.remove` matches by identity.
 */
module DomainPicker {
  import opened Wrappers
  import opened Seqs
  import opened Text

  datatype Domain = Domain(name: string, image: int, selected: bool)

  datatype Category = Category(title: string, domains: seq<Domain>, expanded: bool)

  /** A row of the picker: a category header or one of its domains. */
  datatype Row = CategoryRow(category: int) | DomainRow(category: int, domain: int)

  /** The row's view type: 0 for a category, 1 for a domain. */
  function ViewType(r: Row): (t: int)
    ensures t == 0 <==> r.CategoryRow?
    ensures t == 1 <==> r.DomainRow?
  {
    if r.CategoryRow? then 0 else 1
  }

  /** How many domain rows a category contributes. */
  function ShownDomains(c: Category): (n: int)
    ensures n == (if c.expanded then |c.domains| else 0)
  {
    if c.expanded then |c.domains| else 0
  }

  function DomainRows(c: Category, i: int): (r: seq<Row>)
    ensures |r| == ShownDomains(c)
    ensures forall j :: 0 <= j < |r| ==> r[j] == DomainRow(i, j)
  {
    if c.expanded then seq(|c.domains|, j => DomainRow(i, j)) else []
  }

  /**
   * `rebuildItemList` / `generateItemList`: each category, followed by its
   * domains when it is expanded; `base` is the index of the first category.
   */
  function Flat(cats: seq<Category>, base: int): seq<Row>
    decreases |cats|
  {
    if |cats| == 0 then []
    else [CategoryRow(base)] + DomainRows(cats[0], base) + Flat(cats[1..], base + 1)
  }

  function Rows(cats: seq<Category>): seq<Row>
  {
    Flat(cats, 0)
  }

  /** One row per category plus one per domain of an expanded category. */
  lemma {:induction false} FlatLength(cats: seq<Category>, base: int)
    ensures |Flat(cats, base)| == |cats| + SumOf(cats, ShownDomains)
    decreases |cats|
  {
    if |cats| > 0 {
      FlatLength(cats[1..], base + 1);
    }
  }

  /** Where category `i`'s header sits: after the earlier categories and their shown domains. */
  function Offset(cats: seq<Category>, i: int): int
    requires 0 <= i <= |cats|
  {
    i + SumOf(cats[..i], ShownDomains)
  }

  /**
   * The layout: category `i`'s header is at `Offset(cats, i)`, and its shown
   * domains follow it in order.  With `FlatLength` this fixes every row.
   */
  lemma {:induction false} FlatLayout(cats: seq<Category>, base: int, i: int, j: int)
    requires 0 <= i < |cats|
    ensures 0 <= Offset(cats, i) && Offset(cats, i) + ShownDomains(cats[i]) < |Flat(cats, base)|
    ensures Flat(cats, base)[Offset(cats, i)] == CategoryRow(base + i)
    ensures 0 <= j < ShownDomains(cats[i]) ==> Flat(cats, base)[Offset(cats, i) + 1 + j] == DomainRow(base + i, j)
    decreases |cats|
  {
    var head := [CategoryRow(base)] + DomainRows(cats[0], base);
    var rest := Flat(cats[1..], base + 1);
    assert Flat(cats, base) == head + rest;
    FlatLength(cats[1..], base + 1);
    SumOfNonNegativeShown(cats[1..]);
    SumOfNonNegativeShown(cats[..i]);
    if i > 0 {
      FlatLayout(cats[1..], base + 1, i - 1, j);
      assert cats[1..][i - 1] == cats[i];
      OffsetStep(cats, i);
    } else {
      assert cats[..0] == [];
    }
  }

  /** The header offset of category `i` counts the first category's rows, then the rest. */
  lemma OffsetStep(cats: seq<Category>, i: int)
    requires 0 < i <= |cats|
    ensures Offset(cats, i) == 1 + ShownDomains(cats[0]) + Offset(cats[1..], i - 1)
  {
    assert cats[..i][1..] == cats[1..][..i - 1];
    assert SumOf(cats[..i], ShownDomains) == ShownDomains(cats[0]) + SumOf(cats[1..][..i - 1], ShownDomains);
  }

  lemma SumOfNonNegativeShown(cats: seq<Category>)
    ensures SumOf(cats, ShownDomains) >= 0
  {
    assert forall k :: 0 <= k < |cats| ==> ShownDomains(cats[k]) >= 0;
    SumOfNonNegative(cats, ShownDomains);
  }

  // ---------------------------------------------------------------------
  // Expanding and collapsing
  // ---------------------------------------------------------------------

  /** A click on a category header flips its expanded flag and nothing else. */
  function ToggleCategory(cats: seq<Category>, i: int): (r: seq<Category>)
    requires 0 <= i < |cats|
    ensures |r| == |cats|
    ensures r[i].expanded == !cats[i].expanded
    ensures forall k :: 0 <= k < |cats| ==> r[k].domains == cats[k].domains && r[k].title == cats[k].title
    ensures forall k :: 0 <= k < |cats| && k != i ==> r[k] == cats[k]
  {
    cats[i := cats[i].(expanded := !cats[i].expanded)]
  }

  /** Expanding adds the category's domains to the rows; collapsing removes them. */
  lemma ToggleRowCount(cats: seq<Category>, i: int)
    requires 0 <= i < |cats|
    ensures |Rows(ToggleCategory(cats, i))| ==
            |Rows(cats)| + (if cats[i].expanded then -|cats[i].domains| else |cats[i].domains|)
  {
    FlatLength(cats, 0);
    FlatLength(ToggleCategory(cats, i), 0);
    var c := cats[i].(expanded := !cats[i].expanded);
    assert ToggleCategory(cats, i) == cats[i := c];
    SumOfUpdate(cats, ShownDomains, i, c);
  }

  /** Two clicks on the same header give back the same categories and rows. */
  lemma ToggleTwice(cats: seq<Category>, i: int)
    requires 0 <= i < |cats|
    ensures ToggleCategory(ToggleCategory(cats, i), i) == cats
    ensures Rows(ToggleCategory(ToggleCategory(cats, i), i)) == Rows(cats)
  {
    assert ToggleCategory(ToggleCategory(cats, i), i) == cats;
  }

  /** Rows do not depend on which domains are selected. */
  lemma {:induction false} RowsIgnoreSelection(a: seq<Category>, b: seq<Category>, base: int)
    requires |a| == |b|
    requires forall k :: 0 <= k < |a| ==> a[k].expanded == b[k].expanded && |a[k].domains| == |b[k].domains|
    ensures Flat(a, base) == Flat(b, base)
    decreases |a|
  {
    if |a| > 0 {
      RowsIgnoreSelection(a[1..], b[1..], base + 1);
    }
  }

  // ---------------------------------------------------------------------
  // The adapter that builds its rows once
  // ---------------------------------------------------------------------

  /** The other picker adapter: its categories and the rows it built in its constructor. */
  datatype Expandable = Expandable(cats: seq<Category>, items: seq<Row>)

  function NewExpandable(cats: seq<Category>): (r: Expandable)
    ensures r.items == Rows(cats)
  {
    Expandable(cats, Rows(cats))
  }

  /** As written: a header click flips the flag and notifies, but the rows are never regenerated. */
  function ExpandableClick(a: Expandable, i: int): (r: Expandable)
    requires 0 <= i < |a.cats|
    ensures r.cats == ToggleCategory(a.cats, i)
  {
    a.(cats := ToggleCategory(a.cats, i))
  }

  /** Expanding a collapsed category with domains leaves the rows out of step with the flags. */
  lemma ExpandingShowsNoDomains(cats: seq<Category>, i: int)
    requires 0 <= i < |cats| && !cats[i].expanded && |cats[i].domains| > 0
    ensures |ExpandableClick(NewExpandable(cats), i).items| == |Rows(cats)|
    ensures ExpandableClick(NewExpandable(cats), i).items != Rows(ToggleCategory(cats, i))
  {
    ToggleRowCount(cats, i);
  }

  /** The click the comment beside it describes: flip the flag and rebuild the rows. */
  function ExpandableClickRebuilt(a: Expandable, i: int): (r: Expandable)
    requires 0 <= i < |a.cats|
    ensures r.cats == ToggleCategory(a.cats, i)
    ensures r.items == Rows(r.cats)
  {
    var cats := ToggleCategory(a.cats, i);
    Expandable(cats, Rows(cats))
  }

  /** Rebuilding keeps the rows in step: each click adds or removes exactly that category's domains. */
  lemma RebuiltClickShowsDomains(a: Expandable, i: int)
    requires 0 <= i < |a.cats| && a.items == Rows(a.cats)
    ensures |ExpandableClickRebuilt(a, i).items| ==
            |a.items| + (if a.cats[i].expanded then -|a.cats[i].domains| else |a.cats[i].domains|)
  {
    ToggleRowCount(a.cats, i);
  }

  // ---------------------------------------------------------------------
  // Selecting domains
  // ---------------------------------------------------------------------

  /** A domain, by the position of its category and its position there. */
  datatype DomainRef = DomainRef(category: int, domain: int)

  predicate ValidRef(cats: seq<Category>, d: DomainRef)
  {
    0 <= d.category < |cats| && 0 <= d.domain < |cats[d.category].domains|
  }

  predicate IsSelected(cats: seq<Category>, d: DomainRef)
  {
    ValidRef(cats, d) && cats[d.category].domains[d.domain].selected
  }

  /** A click on a domain row flips that domain's flag; the listener receives the new value. */
  function ToggleDomain(cats: seq<Category>, d: DomainRef): (r: seq<Category>)
    requires ValidRef(cats, d)
    ensures |r| == |cats|
    ensures IsSelected(r, d) == !IsSelected(cats, d)
    ensures forall e :: ValidRef(cats, e) && e != d ==> ValidRef(r, e) && IsSelected(r, e) == IsSelected(cats, e)
    ensures forall k :: 0 <= k < |cats| ==> r[k].expanded == cats[k].expanded && |r[k].domains| == |cats[k].domains|
  {
    var c := cats[d.category];
    var x := c.domains[d.domain];
    cats[d.category := c.(domains := c.domains[d.domain := x.(selected := !x.selected)])]
  }

  /** Selecting a domain does not rebuild or change the rows. */
  lemma SelectingKeepsRows(cats: seq<Category>, d: DomainRef)
    requires ValidRef(cats, d)
    ensures Rows(ToggleDomain(cats, d)) == Rows(cats)
  {
    RowsIgnoreSelection(ToggleDomain(cats, d), cats, 0);
  }

  /** Expanding or collapsing never changes which domains are selected. */
  lemma TogglingKeepsSelection(cats: seq<Category>, i: int, d: DomainRef)
    requires 0 <= i < |cats|
    ensures IsSelected(ToggleCategory(cats, i), d) == IsSelected(cats, d)
  {
  }

  /**
   * `onDomainSelected`: a selection appends the domain; a deselection
   * removes its first occurrence and keeps the others in order, and leaves
   * a list without the domain as it is.
   */
  function OnDomainSelected(selected: seq<DomainRef>, d: DomainRef, isSelected: bool): (r: seq<DomainRef>)
    ensures isSelected ==> r == selected + [d]
    ensures !isSelected ==> multiset(r) == multiset(selected) - multiset{d}
    ensures !isSelected && d !in selected ==> r == selected
    ensures !isSelected && d in selected ==>
              exists k :: 0 <= k < |selected| && selected[k] == d && d !in selected[..k] && r == selected[..k] + selected[k + 1..]
  {
    if isSelected then selected + [d]
    else
      var r := RemoveFirst(selected, d);
      assert d in selected ==>
               exists k :: 0 <= k < |selected| && selected[k] == d && d !in selected[..k] && r == selected[..k] + selected[k + 1..]
      by {
        if d in selected {
          FirstOccurrence(selected, d);
          var k :| 0 <= k < |selected| && selected[k] == d && d !in selected[..k];
          RemoveFirstAt(selected, d, k);
        }
      }
      r
  }

  /** The picker: the categories with their flags and the activity's selection list. */
  datatype Picker = Picker(cats: seq<Category>, selected: seq<DomainRef>)

  /** A domain click, as the adapter and the activity handle it together. */
  function ClickDomain(p: Picker, d: DomainRef): (r: Picker)
    requires ValidRef(p.cats, d)
  {
    var cats := ToggleDomain(p.cats, d);
    Picker(cats, OnDomainSelected(p.selected, d, IsSelected(cats, d)))
  }

  /** The selection list holds each selected domain once and nothing else. */
  ghost predicate Consistent(p: Picker)
  {
    NoDup(p.selected) && forall d :: d in p.selected <==> IsSelected(p.cats, d)
  }

  /** Every domain click keeps the selection list in step with the flags. */
  lemma ClickKeepsConsistent(p: Picker, d: DomainRef)
    requires ValidRef(p.cats, d) && Consistent(p)
    ensures Consistent(ClickDomain(p, d))
  {
    var cats := ToggleDomain(p.cats, d);
    if IsSelected(cats, d) {
      assert d !in p.selected;
      NoDupCons(d, p.selected);
    } else {
      RemoveFirstNoDup(p.selected, d);
    }
  }

  /** Header clicks leave the selection list in step too. */
  lemma HeaderClickKeepsConsistent(p: Picker, i: int)
    requires 0 <= i < |p.cats| && Consistent(p)
    ensures Consistent(Picker(ToggleCategory(p.cats, i), p.selected))
  {
  }

  /** The finish button is enabled with three or more domains selected. */
  predicate FinishEnabled(selected: seq<DomainRef>)
  {
    |selected| >= 3
  }

  /** With a consistent selection, the button counts selected domains, not clicks. */
  lemma FinishCountsSelectedDomains(p: Picker)
    requires Consistent(p)
    ensures FinishEnabled(p.selected) <==> |Elements(p.selected)| >= 3
  {
    ElementsCardinality(p.selected);
  }

  // ---------------------------------------------------------------------
  // Finishing
  // ---------------------------------------------------------------------

  /** What pressing finish does in the account-creating client. */
  datatype Finish = TooFew | UserNotFound | SaveDomains(userId: string, names: seq<string>)

  const TooFewMessage := "Please select at least 3 domains"

  function DomainName(cats: seq<Category>, d: DomainRef): string
  {
    if ValidRef(cats, d) then cats[d.category].domains[d.domain].name else ""
  }

  /**
   * `saveSelectedDomains` behind the finish button: fewer than three shows
   * the error and saves nothing; otherwise the names in selection order go
   * to the user's document, or "User not found" with no user id.
   */
  function OnFinish(p: Picker, userId: Option<string>): (r: Finish)
    ensures r == TooFew <==> |p.selected| < 3
    ensures r == UserNotFound <==> |p.selected| >= 3 && userId.None?
    ensures r.SaveDomains? ==> r.userId == userId.value && |r.names| == |p.selected| &&
                               forall k :: 0 <= k < |r.names| ==> r.names[k] == DomainName(p.cats, p.selected[k])
  {
    if |p.selected| < 3 then TooFew
    else match userId
      case None => UserNotFound
      case Some(u) => SaveDomains(u, Map(p.selected, (d: DomainRef) => DomainName(p.cats, d)))
  }

  const ConfirmPrefix := "Account created with "
  const ConfirmSuffix := " domains selected"

  /**
   * The other client's finish: the same error with fewer than three
   * domains, otherwise a confirmation whose middle is the number of
   * selected domains in decimal, without leading zeros.
   */
  function OnFinishMessage(p: Picker): (r: string)
    ensures |p.selected| < 3 <==> r == TooFewMessage
    ensures |p.selected| >= 3 ==>
              |r| > |ConfirmPrefix| + |ConfirmSuffix| &&
              r[..|ConfirmPrefix|] == ConfirmPrefix && r[|r| - |ConfirmSuffix|..] == ConfirmSuffix &&
              var count := r[|ConfirmPrefix|..|r| - |ConfirmSuffix|];
              AllDigits(count) && count[0] != '0' && DigitsValue(count) == |p.selected|
  {
    if |p.selected| >= 3 then
      var count := NatToString(|p.selected|);
      DigitsValueOfNatToString(|p.selected|);
      NatToStringLeading(|p.selected|);
      var r := ConfirmPrefix + count + ConfirmSuffix;
      assert r[..|ConfirmPrefix|] == ConfirmPrefix;
      assert r[|r| - |ConfirmSuffix|..] == ConfirmSuffix;
      assert r[|ConfirmPrefix|..|r| - |ConfirmSuffix|] == count;
      r
    else TooFewMessage
  }

  // ---------------------------------------------------------------------
  // The sample categories
  // ---------------------------------------------------------------------

  /** The categories and domains both sign-up activities start with, all collapsed and unselected. */
  const SampleCategories: seq<Category> := [
    Category("Tech", [Domain("Web Development", 0, false), Domain("AI", 1, false), Domain("Cybersecurity", 2, false)], false),
    Category("Business", [Domain("Finance", 3, false), Domain("Marketing", 4, false)], false),
    Category("Arts", [Domain("Graphic Design", 5, false), Domain("Music", 6, false)], false)]

  const InitialPicker := Picker(SampleCategories, [])

  /** The picker starts with only the three headers shown and a consistent, empty selection. */
  lemma InitialPickerShape()
    ensures Rows(SampleCategories) == [CategoryRow(0), CategoryRow(1), CategoryRow(2)]
    ensures Consistent(InitialPicker) && !FinishEnabled(InitialPicker.selected)
  {
    assert SampleCategories[1..][1..][1..] == [];
  }
}
