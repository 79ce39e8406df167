/** The category grouping and the fixed section order of the home page
    (frontend/src/pages/EventsHome.jsx) and the dashboard
    (frontend/src/pages/Dashboard.jsx), which share the same `reduce`. */
module Grouping {
  import opened Values
  import opened Docs

  const OtherCategory := "Other"

  /** `ev.category || 'Other'` */
  function CategoryOf(e: Doc): string {
    Or(e.category, OtherCategory)
  }

  /** The events of one category, in list order. */
  function Filter(events: seq<Doc>, c: string): (r: seq<Doc>)
    ensures |r| <= |events|
    ensures forall i :: 0 <= i < |r| ==> CategoryOf(r[i]) == c
  {
    if events == [] then []
    else
      var n := |events| - 1;
      Filter(events[..n], c) + (if CategoryOf(events[n]) == c then [events[n]] else [])
  }

  /** The accumulator the `reduce` ends with. */
  function Grouped(events: seq<Doc>): map<string, seq<Doc>> {
    if events == [] then map[]
    else
      var n := |events| - 1;
      var g := Grouped(events[..n]);
      var c := CategoryOf(events[n]);
      g[c := (if c in g then g[c] else []) + [events[n]]]
  }

  /** Each group is its category's events in list order; a category without
      events has no group. */
  lemma {:induction false} GroupIsFilter(events: seq<Doc>, c: string)
    ensures c in Grouped(events) ==> Grouped(events)[c] == Filter(events, c) && Filter(events, c) != []
    ensures c !in Grouped(events) ==> Filter(events, c) == []
  {
    if events != [] {
      var n := |events| - 1;
      GroupIsFilter(events[..n], c);
    }
  }

  /** The `reduce` over the list, pushing each event onto its category's array. */
  method GroupByCategory(events: seq<Doc>) returns (acc: map<string, seq<Doc>>)
    ensures acc == Grouped(events)
  {
    acc := map[];
    var i := 0;
    while i < |events|
      invariant 0 <= i <= |events|
      invariant acc == Grouped(events[..i])
    {
      assert events[..i + 1][..i] == events[..i];
      var cat := CategoryOf(events[i]);
      if cat !in acc {
        acc := acc[cat := []];
      }
      acc := acc[cat := acc[cat] + [events[i]]];
      i := i + 1;
    }
    assert events[..|events|] == events;
  }

  /** Grouping keeps the list order inside each group. */
  lemma {:induction false} FilterDistributes(a: seq<Doc>, b: seq<Doc>, c: string)
    ensures Filter(a + b, c) == Filter(a, c) + Filter(b, c)
  {
    if b == [] {
      assert a + b == a;
    } else {
      var n := |b| - 1;
      assert (a + b)[..|a + b| - 1] == a + b[..n];
      assert (a + b)[|a + b| - 1] == b[n];
      FilterDistributes(a, b[..n], c);
    }
  }

  /** Every event lands in the group of its own category, and in no other. */
  lemma {:induction false} EachEventInOneGroup(events: seq<Doc>, i: nat)
    requires i < |events|
    ensures CategoryOf(events[i]) in Grouped(events)
    ensures events[i] in Grouped(events)[CategoryOf(events[i])]
    ensures forall c :: c in Grouped(events) && events[i] in Grouped(events)[c] ==> c == CategoryOf(events[i])
  {
    FilterHasEvent(events, i);
    GroupIsFilter(events, CategoryOf(events[i]));
    forall c | c in Grouped(events) && events[i] in Grouped(events)[c]
      ensures c == CategoryOf(events[i])
    {
      GroupIsFilter(events, c);
    }
  }

  lemma {:induction false} FilterHasEvent(events: seq<Doc>, i: nat)
    requires i < |events|
    ensures events[i] in Filter(events, CategoryOf(events[i]))
  {
    var n := |events| - 1;
    if i < n {
      FilterHasEvent(events[..n], i);
      assert events[..n][i] == events[i];
    }
  }

  /** The categories in the order they first occur. */
  function Categories(events: seq<Doc>): (r: seq<string>)
    ensures forall i, j :: 0 <= i < j < |r| ==> r[i] != r[j]
  {
    if events == [] then []
    else
      var n := |events| - 1;
      var o := Categories(events[..n]);
      var c := CategoryOf(events[n]);
      if c in o then o else o + [c]
  }

  /** The categories listed are exactly the groups. */
  lemma {:induction false} CategoriesAreGroups(events: seq<Doc>, c: string)
    ensures c in Categories(events) <==> c in Grouped(events)
  {
    if events != [] {
      CategoriesAreGroups(events[..|events| - 1], c);
    }
  }

  /** The sizes of the groups of the given categories, added up. */
  function SumSizes(cats: seq<string>, events: seq<Doc>): nat {
    if cats == [] then 0 else |Filter(events, cats[0])| + SumSizes(cats[1..], events)
  }

  lemma {:induction false} SumSizesStep(cats: seq<string>, events: seq<Doc>, x: Doc)
    requires forall i, j :: 0 <= i < j < |cats| ==> cats[i] != cats[j]
    ensures SumSizes(cats, events + [x]) == SumSizes(cats, events) + (if CategoryOf(x) in cats then 1 else 0)
  {
    if cats != [] {
      assert (events + [x])[..|events + [x]| - 1] == events;
      SumSizesStep(cats[1..], events, x);
      assert CategoryOf(x) in cats <==> CategoryOf(x) == cats[0] || CategoryOf(x) in cats[1..];
    }
  }

  lemma {:induction false} SumSizesAppend(cats: seq<string>, c: string, events: seq<Doc>)
    ensures SumSizes(cats + [c], events) == SumSizes(cats, events) + |Filter(events, c)|
  {
    if cats != [] {
      assert (cats + [c])[1..] == cats[1..] + [c];
      SumSizesAppend(cats[1..], c, events);
    } else {
      assert SumSizes([c], events) == |Filter(events, c)| + SumSizes([], events);
    }
  }

  /** The group sizes add up to the number of events. */
  lemma {:induction false} GroupSizesSum(events: seq<Doc>)
    ensures SumSizes(Categories(events), events) == |events|
  {
    if events != [] {
      var n := |events| - 1;
      var p := events[..n];
      var x := events[n];
      assert events == p + [x];
      GroupSizesSum(p);
      SumSizesStep(Categories(p), p, x);
      if CategoryOf(x) !in Categories(p) {
        CategoriesAreGroups(p, CategoryOf(x));
        GroupIsFilter(p, CategoryOf(x));
        SumSizesAppend(Categories(p), CategoryOf(x), events);
        assert Filter(events, CategoryOf(x)) == Filter(p, CategoryOf(x)) + [x];
      }
    }
  }

  /** A rendered section: its heading and its cards. */
  datatype Section = Section(heading: string, events: seq<Doc>)

  const SectionOrder: seq<string> := ["Hackathon", "Workshop", "Other"]
  const OtherEventsHeading := "Other Events"

  /** `order.map(...)`: a section `<cat>s` for each listed category with a non-empty group. */
  function CategorySections(g: map<string, seq<Doc>>, order: seq<string>): (r: seq<Section>)
    ensures |r| <= |order|
    ensures forall s :: s in r ==> exists c :: c in order && c in g && s == Section(c + "s", g[c]) && g[c] != []
  {
    if order == [] then []
    else
      (if order[0] in g && |g[order[0]]| > 0 then [Section(order[0] + "s", g[order[0]])] else [])
      + CategorySections(g, order[1..])
  }

  /** Every listed category with a non-empty group has its section. */
  lemma {:induction false} CategorySectionsComplete(g: map<string, seq<Doc>>, order: seq<string>, c: string)
    requires c in order && c in g && g[c] != []
    ensures Section(c + "s", g[c]) in CategorySections(g, order)
  {
    if order[0] != c {
      CategorySectionsComplete(g, order[1..], c);
    }
  }

  /** One listed category gives its section, or nothing when it has no events. */
  lemma CategorySectionsOne(g: map<string, seq<Doc>>, c: string)
    ensures c in g && g[c] != [] ==> CategorySections(g, [c]) == [Section(c + "s", g[c])]
    ensures !(c in g && g[c] != []) ==> CategorySections(g, [c]) == []
  {
    assert [c][1..] == [];
  }

  /** The sections of a concatenated order are those of each part in turn: with
      `CategorySectionsOne` this fixes the sections and their order. */
  lemma {:induction false} CategorySectionsAppend(g: map<string, seq<Doc>>, a: seq<string>, b: seq<string>)
    ensures CategorySections(g, a + b) == CategorySections(g, a) + CategorySections(g, b)
  {
    if a == [] {
      assert a + b == b;
    } else {
      assert (a + b)[0] == a[0];
      assert (a + b)[1..] == a[1..] + b;
      CategorySectionsAppend(g, a[1..], b);
    }
  }

  /** The home page: the listed categories, then the `Other` group again. */
  function HomeSections(g: map<string, seq<Doc>>): seq<Section> {
    CategorySections(g, SectionOrder)
    + (if OtherCategory in g && |g[OtherCategory]| > 0 then [Section(OtherEventsHeading, g[OtherCategory])] else [])
  }

  /** The dashboard: the same, but the second `Other` section only tests that the
      group exists (an empty array is truthy). */
  function DashboardSections(g: map<string, seq<Doc>>): seq<Section> {
    CategorySections(g, SectionOrder)
    + (if OtherCategory in g then [Section(OtherEventsHeading, g[OtherCategory])] else [])
  }

  /** `!events.length && !loading` */
  predicate ShowsEmptyMessage(events: seq<Doc>, loading: bool) {
    |events| == 0 && !loading
  }

  /** The two pages render the same sections for every list: the dashboard's
      weaker test cannot differ, since a group is never empty. */
  lemma DashboardAgreesWithHome(events: seq<Doc>)
    ensures DashboardSections(Grouped(events)) == HomeSections(Grouped(events))
  {
    GroupIsFilter(events, OtherCategory);
  }

  /** An event of a category outside Hackathon, Workshop and Other is on no section. */
  lemma UnlistedCategoryHidden(events: seq<Doc>, e: Doc)
    requires CategoryOf(e) !in SectionOrder
    ensures forall s :: s in HomeSections(Grouped(events)) ==> e !in s.events
  {
    var g := Grouped(events);
    forall s | s in HomeSections(g)
      ensures e !in s.events
    {
      var c: string;
      if s in CategorySections(g, SectionOrder) {
        c :| c in SectionOrder && c in g && s == Section(c + "s", g[c]);
      } else {
        c := OtherCategory;
      }
      GroupIsFilter(events, c);
    }
  }

  /** With events of all three listed categories, the sections come in the fixed
      order, and the `Other` group is shown twice. */
  lemma SectionOrderFixed(events: seq<Doc>)
    requires forall c :: c in SectionOrder ==> c in Grouped(events)
    ensures var g := Grouped(events);
      HomeSections(g) == [
        Section("Hackathons", g["Hackathon"]), Section("Workshops", g["Workshop"]),
        Section("Others", g["Other"]), Section(OtherEventsHeading, g["Other"])]
  {
    var g := Grouped(events);
    GroupIsFilter(events, "Hackathon");
    GroupIsFilter(events, "Workshop");
    GroupIsFilter(events, "Other");
    assert "Hackathon" in SectionOrder && "Workshop" in SectionOrder && "Other" in SectionOrder;
    assert "Hackathon" + "s" == "Hackathons" && "Workshop" + "s" == "Workshops" && "Other" + "s" == "Others";
    assert SectionOrder == ["Hackathon"] + (["Workshop"] + ["Other"]);
    CategorySectionsOne(g, "Hackathon");
    CategorySectionsOne(g, "Workshop");
    CategorySectionsOne(g, "Other");
    CategorySectionsAppend(g, ["Workshop"], ["Other"]);
    CategorySectionsAppend(g, ["Hackathon"], ["Workshop"] + ["Other"]);
  }

  /** No events: no section at all. */
  lemma NoEventsNoSections()
    ensures HomeSections(Grouped([])) == [] && ShowsEmptyMessage([], false)
  {
    assert SectionOrder[1..][1..][1..] == [];
  }
}
