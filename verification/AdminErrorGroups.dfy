/** The error groups of blueprints/admin.py: one pass over the parsed entries that keeps, for each
 * fingerprint, a count, the first and last timestamp, and a sample entry.
 */
module AdminErrorGroups {
  import opened Wrappers
  import opened Text

  /** A parsed entry: its fingerprint, its timestamp if that is a text, whether a timestamp that is no text
    * still counts as one (a number other than zero, say), and everything else. */
  datatype Entry = Entry(fingerprint: string, ts: Option<string>, truthy: bool, payload: string)

  /** A timestamp the loop keeps but cannot compare with a text. */
  predicate Odd(e: Entry) {
    e.ts.None? && e.truthy
  }

  /** `odd`: both bounds still hold the odd timestamp of the first entry. */
  datatype Group = Group(count: nat, firstSeen: Option<string>, lastSeen: Option<string>, odd: bool, sample: Entry)

  /** A dictionary keeps its keys in the order they were first inserted. */
  datatype Groups = Groups(order: seq<string>, table: map<string, Group>)

  // ---------------------------------------------------------------- the fold

  /** An empty timestamp reads as a missing one. */
  predicate Missing(seen: Option<string>) {
    seen.None? || seen.value == ""
  }

  function Earliest(seen: Option<string>, ts: Option<string>): Option<string> {
    if ts.Some? && (Missing(seen) || Less(ts.value, seen.value)) then ts else seen
  }

  function Latest(seen: Option<string>, ts: Option<string>): Option<string> {
    if ts.Some? && (Missing(seen) || Less(seen.value, ts.value)) then ts else seen
  }

  function Started(e: Entry): Group {
    Group(1, e.ts, e.ts, Odd(e), e)
  }

  function Joined(g: Group, e: Entry): Group {
    var last := Latest(g.lastSeen, e.ts);
    Group(g.count + 1, Earliest(g.firstSeen, e.ts), last, g.odd,
          if e.ts.Some? && last.Some? && AtMost(last.value, e.ts.value) then e else g.sample)
  }

  function Add(gs: Groups, e: Entry): Groups {
    if e.fingerprint in gs.table then gs.(table := gs.table[e.fingerprint := Joined(gs.table[e.fingerprint], e)])
    else Groups(gs.order + [e.fingerprint], gs.table[e.fingerprint := Started(e)])
  }

  function Grouped(entries: seq<Entry>): Groups {
    if entries == [] then Groups([], map[])
    else Add(Grouped(entries[..|entries| - 1]), entries[|entries| - 1])
  }

  /** The loop over the entries, updating the dictionary and the total in place. */
  class Grouping {
    var order: seq<string>
    var table: map<string, Group>
    var total: nat

    constructor ()
      ensures order == [] && table == map[] && total == 0
    {
      order, table, total := [], map[], 0;
    }

    /** A text timestamp that meets an odd one ends the loop with an exception. */
    method Fold(entries: seq<Entry>) returns (raised: bool)
      requires order == [] && table == map[] && total == 0
      modifies this
      ensures raised <==> SomeGroupClashes(entries)
      ensures !raised ==> Groups(order, table) == Grouped(entries) && total == |entries|
    {
      NoneClashes();
      for i := 0 to |entries|
        invariant Groups(order, table) == Grouped(entries[..i]) && total == i
        invariant !SomeGroupClashes(entries[..i])
      {
        var e := entries[i];
        assert entries[..i + 1] == entries[..i] + [e];
        ClashStep(entries[..i], e);
        total := total + 1;
        if e.fingerprint !in table {
          order, table := order + [e.fingerprint], table[e.fingerprint := Group(1, e.ts, e.ts, Odd(e), e)];
        } else {
          var g := table[e.fingerprint];
          g := g.(count := g.count + 1);
          if e.ts.Some? {
            if g.odd {
              ClashStays(entries[..i + 1], entries[i + 1..]);
              assert entries[..i + 1] + entries[i + 1..] == entries;
              return true;
            }
            if Missing(g.firstSeen) || Less(e.ts.value, g.firstSeen.value) { g := g.(firstSeen := e.ts); }
            if Missing(g.lastSeen) || Less(g.lastSeen.value, e.ts.value) { g := g.(lastSeen := e.ts); }
            if g.lastSeen.Some? && AtMost(g.lastSeen.value, e.ts.value) { g := g.(sample := e); }
          }
          table := table[e.fingerprint := g];
        }
        assert entries[..i + 1][..i] == entries[..i];
      }
      assert entries[..|entries|] == entries;
      raised := false;
    }
  }

  // ---------------------------------------------------------------- what a group is

  /** The entries with this fingerprint, in file order. */
  function Mine(entries: seq<Entry>, fingerprint: string): seq<Entry> {
    if entries == [] then []
    else
      var e := entries[|entries| - 1];
      Mine(entries[..|entries| - 1], fingerprint) + if e.fingerprint == fingerprint then [e] else []
  }

  /** One group's own fold: the entries of a fingerprint never meet the others. */
  function GroupOf(mine: seq<Entry>): Group
    requires mine != []
  {
    if |mine| == 1 then Started(mine[0]) else Joined(GroupOf(mine[..|mine| - 1]), mine[|mine| - 1])
  }

  predicate Distinct(s: seq<string>) {
    forall i, j :: 0 <= i < j < |s| ==> s[i] != s[j]
  }

  /** What the dictionary says about one fingerprint. */
  ghost predicate GroupIs(gs: Groups, entries: seq<Entry>, fp: string) {
    && (fp in gs.table <==> Mine(entries, fp) != [])
    && (fp in gs.table ==> gs.table[fp] == GroupOf(Mine(entries, fp)))
    && (fp in gs.order <==> fp in gs.table)
  }

  lemma MineStep(entries: seq<Entry>, e: Entry, fp: string)
    ensures Mine(entries + [e], fp) == if e.fingerprint == fp then Mine(entries, fp) + [e] else Mine(entries, fp)
  {
    assert (entries + [e])[..|entries|] == entries;
  }

  lemma AddKeepsGroup(gs: Groups, entries: seq<Entry>, e: Entry, fp: string)
    requires GroupIs(gs, entries, fp)
    ensures GroupIs(Add(gs, e), entries + [e], fp)
  {
    MineStep(entries, e, fp);
    var mine := Mine(entries, fp);
    if e.fingerprint == fp {
      assert (mine + [e])[..|mine|] == mine;
      assert mine == [] ==> mine + [e] == [e];
    }
  }

  lemma {:induction false} GroupFor(entries: seq<Entry>, fp: string)
    ensures GroupIs(Grouped(entries), entries, fp)
  {
    if entries != [] {
      var rest, e := entries[..|entries| - 1], entries[|entries| - 1];
      GroupFor(rest, fp);
      AddKeepsGroup(Grouped(rest), rest, e, fp);
      assert entries == rest + [e];
    }
  }

  lemma {:induction false} OrderIsDistinct(entries: seq<Entry>)
    ensures Distinct(Grouped(entries).order)
  {
    if entries != [] {
      var rest, e := entries[..|entries| - 1], entries[|entries| - 1];
      OrderIsDistinct(rest);
      GroupFor(rest, e.fingerprint);
    }
  }

  lemma GroupsAreIndependent(entries: seq<Entry>)
    ensures forall fp :: GroupIs(Grouped(entries), entries, fp)
    ensures Distinct(Grouped(entries).order)
  {
    OrderIsDistinct(entries);
    forall fp ensures GroupIs(Grouped(entries), entries, fp) { GroupFor(entries, fp); }
  }

  // ---- when the loop raises

  /** The first of these entries has an odd timestamp and some other one a text. */
  predicate Clashes(mine: seq<Entry>) {
    mine != [] && Odd(mine[0]) && exists i :: 0 <= i < |mine| && mine[i].ts.Some?
  }

  ghost predicate SomeGroupClashes(entries: seq<Entry>) {
    exists fp :: Clashes(Mine(entries, fp))
  }

  lemma ClashesAppend(mine: seq<Entry>, e: Entry)
    ensures Clashes(mine + [e]) <==> Clashes(mine) || (mine != [] && Odd(mine[0]) && e.ts.Some?)
  {
    var all := mine + [e];
    assert all[|mine|] == e;
    if Clashes(mine) {
      var i :| 0 <= i < |mine| && mine[i].ts.Some?;
      assert all[i] == mine[i];
    }
  }

  /** The group of these entries still holds an odd timestamp exactly when its first entry had one. */
  lemma {:induction false} OddIsOfTheFirst(mine: seq<Entry>)
    requires mine != []
    ensures GroupOf(mine).odd == Odd(mine[0])
  {
    if |mine| > 1 { OddIsOfTheFirst(mine[..|mine| - 1]); }
  }

  lemma NoneClashes()
    ensures !SomeGroupClashes([])
  {
  }

  /** One more entry clashes exactly when it brings a text to a group that started with an odd one. */
  lemma ClashStep(entries: seq<Entry>, e: Entry)
    requires !SomeGroupClashes(entries)
    ensures SomeGroupClashes(entries + [e])
       <==> e.ts.Some? && e.fingerprint in Grouped(entries).table && Grouped(entries).table[e.fingerprint].odd
  {
    var mine := Mine(entries, e.fingerprint);
    GroupFor(entries, e.fingerprint);
    if mine != [] { OddIsOfTheFirst(mine); }
    assert !Clashes(mine);
    ClashesAppend(mine, e);
    MineStep(entries, e, e.fingerprint);
    if SomeGroupClashes(entries + [e]) {
      var fp :| Clashes(Mine(entries + [e], fp));
      MineStep(entries, e, fp);
    } else {
      assert !Clashes(Mine(entries + [e], e.fingerprint));
    }
  }

  lemma ClashStays(entries: seq<Entry>, more: seq<Entry>)
    requires SomeGroupClashes(entries)
    ensures SomeGroupClashes(entries + more)
  {
    var fp :| Clashes(Mine(entries, fp));
    MineJoins(entries, more, fp);
    var mine, all := Mine(entries, fp), Mine(entries, fp) + Mine(more, fp);
    var i :| 0 <= i < |mine| && mine[i].ts.Some?;
    assert all[i].ts.Some?;
    assert Clashes(Mine(entries + more, fp));
  }

  // ---- counts

  function SumOf(order: seq<string>, table: map<string, Group>): nat
    requires forall fp :: fp in order ==> fp in table
  {
    if order == [] then 0 else SumOf(order[..|order| - 1], table) + table[order[|order| - 1]].count
  }

  lemma {:induction false} SumSame(order: seq<string>, a: map<string, Group>, b: map<string, Group>)
    requires forall fp :: fp in order ==> fp in a && fp in b && a[fp].count == b[fp].count
    ensures SumOf(order, a) == SumOf(order, b)
  {
    if order != [] {
      SumSame(order[..|order| - 1], a, b);
    }
  }

  lemma {:induction false} SumOneMore(order: seq<string>, a: map<string, Group>, b: map<string, Group>, k: nat)
    requires k < |order| && Distinct(order)
    requires forall fp :: fp in order ==> fp in a && fp in b
    requires forall fp :: fp in order && fp != order[k] ==> a[fp].count == b[fp].count
    requires b[order[k]].count == a[order[k]].count + 1
    ensures SumOf(order, b) == SumOf(order, a) + 1
  {
    var last := |order| - 1;
    if k == last {
      forall fp | fp in order[..last] ensures fp != order[k] {
        var i :| 0 <= i < last && order[..last][i] == fp;
        assert order[i] == fp;
      }
      SumSame(order[..last], a, b);
    } else {
      assert order[last] != order[k];
      SumOneMore(order[..last], a, b, k);
    }
  }

  lemma AddCounts(gs: Groups, e: Entry)
    requires Distinct(gs.order) && forall fp :: fp in gs.order <==> fp in gs.table
    ensures forall fp :: fp in Add(gs, e).order ==> fp in Add(gs, e).table
    ensures SumOf(Add(gs, e).order, Add(gs, e).table) == SumOf(gs.order, gs.table) + 1
  {
    var after := Add(gs, e);
    if e.fingerprint in gs.table {
      var k :| 0 <= k < |gs.order| && gs.order[k] == e.fingerprint;
      SumOneMore(gs.order, gs.table, after.table, k);
    } else {
      assert after.order[..|after.order| - 1] == gs.order;
      SumSame(gs.order, gs.table, after.table);
    }
  }

  /** The counts of all groups add up to the number of entries. */
  lemma {:induction false} CountsSumToTotal(entries: seq<Entry>)
    ensures var gs := Grouped(entries);
            (forall fp :: fp in gs.order ==> fp in gs.table) && SumOf(gs.order, gs.table) == |entries|
  {
    if entries != [] {
      var rest, e := entries[..|entries| - 1], entries[|entries| - 1];
      OrderIsDistinct(rest);
      forall fp ensures fp in Grouped(rest).order <==> fp in Grouped(rest).table { GroupFor(rest, fp); }
      CountsSumToTotal(rest);
      AddCounts(Grouped(rest), e);
    }
  }

  // ---- bounds and sample

  /** The text timestamps of these entries, in file order. */
  function Stamps(mine: seq<Entry>): seq<string> {
    if mine == [] then []
    else Stamps(mine[..|mine| - 1]) + if mine[|mine| - 1].ts.Some? then [mine[|mine| - 1].ts.value] else []
  }

  ghost predicate IsMax(m: string, stamps: seq<string>) {
    m in stamps && forall t :: t in stamps ==> AtMost(t, m)
  }

  ghost predicate IsMin(m: string, stamps: seq<string>) {
    m in stamps && forall t :: t in stamps ==> AtMost(m, t)
  }

  lemma {:induction false} LastSeenIsMax(mine: seq<Entry>)
    requires mine != []
    ensures var g := GroupOf(mine);
            && g.count == |mine|
            && (g.lastSeen.None? <==> Stamps(mine) == [])
            && (g.lastSeen.Some? ==> IsMax(g.lastSeen.value, Stamps(mine)))
  {
    var e := mine[|mine| - 1];
    if |mine| == 1 {
      assert Stamps(mine[..0]) == [];
      assert Stamps(mine) == if e.ts.Some? then [e.ts.value] else [];
      if e.ts.Some? { LessIsTotal(e.ts.value, e.ts.value); }
    } else {
      var rest := mine[..|mine| - 1];
      LastSeenIsMax(rest);
      var seen := GroupOf(rest).lastSeen;
      if e.ts.Some? {
        var now := Latest(seen, e.ts).value;
        forall t | t in Stamps(mine) ensures AtMost(t, now) {
          MaxGrows(seen, e.ts.value, t, Stamps(rest));
        }
      }
    }
  }

  lemma MaxGrows(seen: Option<string>, ts: string, t: string, before: seq<string>)
    requires seen.None? ==> before == []
    requires seen.Some? ==> IsMax(seen.value, before)
    requires t == ts || t in before
    ensures AtMost(t, Latest(seen, Some(ts)).value)
  {
    LessIsTotal(t, t);
    LessIsTotal(ts, if seen.Some? then seen.value else "");
    if t in before && seen.Some? && Less(seen.value, ts) { AtMostIsTransitive(t, seen.value, ts); }
    if t in before && seen.Some? && seen.value == "" { AtMostIsTransitive(t, "", ts); }
  }

  /** Entry `k` carries the timestamp `last`, and no entry after it does. */
  predicate LatestWith(mine: seq<Entry>, k: nat, last: string) {
    && k < |mine| && mine[k].ts == Some(last)
    && forall j :: k < j < |mine| ==> mine[j].ts != Some(last)
  }

  /** The sample is the latest entry in the file among those with the last timestamp; when no entry of
    * the group has one, it is the first entry. */
  ghost predicate IsSample(sample: Entry, mine: seq<Entry>, last: Option<string>) {
    if last.None? then mine != [] && sample == mine[0]
    else exists k: nat :: LatestWith(mine, k, last.value) && mine[k] == sample
  }

  lemma {:induction false} SampleIsLatestOfLast(mine: seq<Entry>)
    requires mine != []
    ensures IsSample(GroupOf(mine).sample, mine, GroupOf(mine).lastSeen)
  {
    var last := |mine| - 1;
    var e := mine[last];
    if |mine| == 1 {
      if e.ts.Some? { assert LatestWith(mine, 0, e.ts.value); }
    } else {
      var rest := mine[..last];
      SampleIsLatestOfLast(rest);
      assert GroupOf(mine) == Joined(GroupOf(rest), e);
      var seen, now := GroupOf(rest).lastSeen, GroupOf(mine).lastSeen;
      if e.ts.Some? {
        LessIsTotal(e.ts.value, e.ts.value);
        LessIsTotal(e.ts.value, if seen.Some? then seen.value else "");
      }
      if e.ts.Some? && AtMost(now.value, e.ts.value) {
        LessIsTotal(now.value, e.ts.value);
        assert LatestWith(mine, last, now.value);
      } else if seen.Some? {
        var k: nat :| LatestWith(rest, k, seen.value) && rest[k] == GroupOf(rest).sample;
        assert now == seen && e.ts != now;
        assert LatestWith(mine, k, seen.value);
      }
    }
  }

  // ---- the first timestamp

  function Smallest(stamps: seq<string>): Option<string> {
    if stamps == [] then None else Earliest(Smallest(stamps[..|stamps| - 1]), Some(stamps[|stamps| - 1]))
  }

  lemma {:induction false} FirstSeenFolds(mine: seq<Entry>)
    requires mine != []
    ensures GroupOf(mine).firstSeen == Smallest(Stamps(mine))
  {
    if |mine| == 1 {
      assert Stamps(mine[..0]) == [];
      assert Stamps(mine) == if mine[0].ts.Some? then [mine[0].ts.value] else [];
      assert mine[0].ts.Some? ==> Stamps(mine)[..0] == [];
    } else {
      var rest, e := mine[..|mine| - 1], mine[|mine| - 1];
      FirstSeenFolds(rest);
      assert GroupOf(mine) == Joined(GroupOf(rest), e);
      if e.ts.Some? {
        var stamps := Stamps(mine);
        assert stamps == Stamps(rest) + [e.ts.value];
        assert stamps[..|stamps| - 1] == Stamps(rest) && stamps[|stamps| - 1] == e.ts.value;
        assert Smallest(stamps) == Earliest(Smallest(Stamps(rest)), e.ts);
      } else {
        assert Stamps(mine) == Stamps(rest);
      }
    }
  }

  lemma {:induction false} SmallestOfStamps(stamps: seq<string>)
    requires stamps != []
    ensures Smallest(stamps).Some? && Smallest(stamps).value in stamps
    ensures Smallest(stamps).value == "" <==> stamps[|stamps| - 1] == ""
    ensures "" !in stamps ==> IsMin(Smallest(stamps).value, stamps)
  {
    var rest, ts := stamps[..|stamps| - 1], stamps[|stamps| - 1];
    LessIsTotal(ts, ts);
    if rest != [] {
      SmallestOfStamps(rest);
      var seen, now := Smallest(rest).value, Smallest(stamps).value;
      LessIsTotal(ts, seen);
      if "" !in stamps {
        assert "" !in rest by { assert forall t :: t in rest ==> t in stamps; }
        forall t | t in stamps ensures AtMost(now, t) {
          if t in rest { assert AtMost(seen, t); if Less(ts, seen) { AtMostIsTransitive(ts, seen, t); } }
          else { assert t == ts; }
        }
      }
    }
  }

  /** `first_seen` is the smallest timestamp if and only if no timestamp of the group is empty or the
    * last one is: an empty timestamp reads as a missing one and is overwritten by whatever follows. */
  lemma FirstSeenIsMinIff(mine: seq<Entry>)
    requires mine != [] && Stamps(mine) != []
    ensures var stamps, first := Stamps(mine), GroupOf(mine).firstSeen;
            && first.Some?
            && (IsMin(first.value, stamps) <==> "" !in stamps || stamps[|stamps| - 1] == "")
  {
    var stamps := Stamps(mine);
    FirstSeenFolds(mine);
    SmallestOfStamps(stamps);
    var first := Smallest(stamps).value;
    if first == "" {
      forall t | t in stamps ensures AtMost("", t) {}
    } else if "" in stamps {
      assert Less("", first);
    }
  }

  /** Two orders of the same two entries, two first timestamps. */
  lemma EmptyTimestampDependsOnOrder()
    ensures var a, b := Entry("x", Some(""), false, ""), Entry("x", Some("2024"), true, "");
            GroupOf([a, b]).firstSeen == Some("2024") && GroupOf([b, a]).firstSeen == Some("")
  {
    var a, b := Entry("x", Some(""), false, ""), Entry("x", Some("2024"), true, "");
    assert [a, b][..1] == [a] && [b, a][..1] == [b];
  }

  // ---- order does not matter otherwise

  lemma {:induction false} MineJoins(a: seq<Entry>, b: seq<Entry>, fp: string)
    ensures Mine(a + b, fp) == Mine(a, fp) + Mine(b, fp)
  {
    if b == [] {
      assert a + b == a;
    } else {
      assert (a + b)[..|a + b| - 1] == a + b[..|b| - 1];
      MineJoins(a, b[..|b| - 1], fp);
    }
  }

  lemma {:induction false} StampsJoin(a: seq<Entry>, b: seq<Entry>)
    ensures Stamps(a + b) == Stamps(a) + Stamps(b)
  {
    if b == [] {
      assert a + b == a;
    } else {
      assert (a + b)[..|a + b| - 1] == a + b[..|b| - 1];
      StampsJoin(a, b[..|b| - 1]);
    }
  }

  /** Taking one entry out takes out its own stamp, wherever it stands. */
  lemma TakeOneOut(b: seq<Entry>, k: nat, fp: string)
    requires k < |b|
    ensures var rest, one := b[..k] + b[k + 1..], Mine([b[k]], fp);
            && |Mine(b, fp)| == |Mine(rest, fp)| + |one|
            && multiset(Stamps(Mine(b, fp))) == multiset(Stamps(Mine(rest, fp))) + multiset(Stamps(one))
  {
    var before, after := b[..k], b[k + 1..];
    var one := Mine([b[k]], fp);
    assert b == before + [b[k]] + after;
    MineJoins(before + [b[k]], after, fp);
    MineJoins(before, [b[k]], fp);
    MineJoins(before, after, fp);
    StampsJoin(Mine(before, fp) + one, Mine(after, fp));
    StampsJoin(Mine(before, fp), one);
    StampsJoin(Mine(before, fp), Mine(after, fp));
  }

  lemma {:induction false} SameEntriesSameStamps(a: seq<Entry>, b: seq<Entry>, fp: string)
    requires multiset(a) == multiset(b)
    ensures |Mine(a, fp)| == |Mine(b, fp)|
    ensures multiset(Stamps(Mine(a, fp))) == multiset(Stamps(Mine(b, fp)))
    decreases |a|
  {
    if a == [] {
      assert |b| == |multiset(b)|;
    } else {
      var last := |a| - 1;
      assert a[last] in multiset(b);
      var k :| 0 <= k < |b| && b[k] == a[last];
      SameRest(a, b, k);
      SameEntriesSameStamps(a[..last] + a[last + 1..], b[..k] + b[k + 1..], fp);
      TakeOneOut(a, last, fp);
      TakeOneOut(b, k, fp);
    }
  }

  lemma WithoutOne(s: seq<Entry>, k: nat)
    requires k < |s|
    ensures multiset(s[..k] + s[k + 1..]) == multiset(s) - multiset{s[k]}
  {
    assert s == s[..k] + [s[k]] + s[k + 1..];
  }

  lemma SameRest(a: seq<Entry>, b: seq<Entry>, k: nat)
    requires a != [] && multiset(a) == multiset(b) && k < |b| && b[k] == a[|a| - 1]
    ensures multiset(a[..|a| - 1] + a[|a|..]) == multiset(b[..k] + b[k + 1..])
  {
    WithoutOne(a, |a| - 1);
    WithoutOne(b, k);
  }

  lemma SameStampsSameBounds(a: seq<string>, b: seq<string>, m: string, n: string)
    requires multiset(a) == multiset(b)
    ensures IsMax(m, a) && IsMax(n, b) ==> m == n
    ensures IsMin(m, a) && IsMin(n, b) ==> m == n
  {
    assert forall t :: t in a <==> t in multiset(a);
    assert forall t :: t in b <==> t in multiset(b);
    LessIsTotal(m, n);
  }

  /** What the viewer shows as a bound: nothing, a text, or the odd timestamp the group started with. */
  datatype Shown = NothingShown | TextShown(text: string) | OddShown(of: Entry)

  /** A group's bounds as they are shown; the odd timestamp is that of the group's first entry. */
  function ShownFirst(mine: seq<Entry>): Shown
    requires mine != []
  {
    ShownAs(GroupOf(mine), GroupOf(mine).firstSeen, mine[0])
  }

  function ShownLast(mine: seq<Entry>): Shown
    requires mine != []
  {
    ShownAs(GroupOf(mine), GroupOf(mine).lastSeen, mine[0])
  }

  function ShownAs(g: Group, seen: Option<string>, first: Entry): Shown {
    if g.odd then OddShown(first) else if seen.Some? then TextShown(seen.value) else NothingShown
  }

  lemma {:induction false} StampsIff(mine: seq<Entry>)
    ensures Stamps(mine) != [] <==> exists i :: 0 <= i < |mine| && mine[i].ts.Some?
  {
    if mine != [] {
      var n := |mine| - 1;
      StampsIff(mine[..n]);
      if Stamps(mine[..n]) != [] {
        var i :| 0 <= i < n && mine[..n][i].ts.Some?;
        assert mine[i].ts.Some?;
      }
      if exists i :: 0 <= i < n && mine[i].ts.Some? {
        var i :| 0 <= i < n && mine[i].ts.Some?;
        assert mine[..n][i].ts.Some?;
      }
    }
  }

  /** Where the loop gets through a group, what is shown for it: the odd timestamp of its first entry exactly
    * when that has one, and then no entry has a text; else the largest and the first text, if any. */
  lemma ShownBounds(mine: seq<Entry>)
    requires mine != [] && !Clashes(mine)
    ensures Odd(mine[0]) ==> ShownFirst(mine) == ShownLast(mine) == OddShown(mine[0]) && Stamps(mine) == []
    ensures !Odd(mine[0]) && Stamps(mine) == [] ==> ShownFirst(mine) == ShownLast(mine) == NothingShown
    ensures !Odd(mine[0]) && Stamps(mine) != [] ==>
              && ShownLast(mine).TextShown? && IsMax(ShownLast(mine).text, Stamps(mine))
              && ShownFirst(mine) == TextShown(Smallest(Stamps(mine)).value)
  {
    OddIsOfTheFirst(mine);
    StampsIff(mine);
    LastSeenIsMax(mine);
    FirstSeenFolds(mine);
    if Stamps(mine) != [] { SmallestOfStamps(Stamps(mine)); }
  }

  // ---- which order raises

  /** The same entries with entry `k` put first. */
  function ToFront(mine: seq<Entry>, k: nat): seq<Entry>
    requires k < |mine|
  {
    [mine[k]] + mine[..k] + mine[k + 1..]
  }

  lemma ToFrontIsSame(mine: seq<Entry>, k: nat)
    requires k < |mine|
    ensures multiset(ToFront(mine, k)) == multiset(mine)
  {
    assert mine == mine[..k] + [mine[k]] + mine[k + 1..];
  }

  /** Some order of a group's entries makes the loop raise exactly when the group has an odd timestamp and a
    * text one; and then some other order does not. */
  lemma SomeOrderRaisesIff(mine: seq<Entry>)
    ensures (exists order: seq<Entry> :: multiset(order) == multiset(mine) && Clashes(order))
       <==> (exists e :: e in mine && Odd(e)) && exists e :: e in mine && e.ts.Some?
    ensures (exists order: seq<Entry> :: multiset(order) == multiset(mine) && Clashes(order)) ==>
              exists order: seq<Entry> :: multiset(order) == multiset(mine) && !Clashes(order)
  {
    if (exists e :: e in mine && Odd(e)) && exists e :: e in mine && e.ts.Some? {
      var e :| e in mine && Odd(e);
      var f :| f in mine && f.ts.Some?;
      FrontRaises(mine, e, f);
      FrontDoesNot(mine, f);
    }
    if exists order: seq<Entry> :: multiset(order) == multiset(mine) && Clashes(order) {
      var order: seq<Entry> :| multiset(order) == multiset(mine) && Clashes(order);
      var i :| 0 <= i < |order| && order[i].ts.Some?;
      assert order[0] in multiset(mine) && order[i] in multiset(mine);
    }
  }

  lemma FrontRaises(mine: seq<Entry>, e: Entry, f: Entry)
    requires e in mine && Odd(e) && f in mine && f.ts.Some?
    ensures exists order: seq<Entry> :: multiset(order) == multiset(mine) && Clashes(order)
  {
    var k :| 0 <= k < |mine| && mine[k] == e;
    var order := ToFront(mine, k);
    ToFrontIsSame(mine, k);
    assert f in multiset(order);
    var i :| 0 <= i < |order| && order[i] == f;
    assert Clashes(order);
  }

  lemma FrontDoesNot(mine: seq<Entry>, f: Entry)
    requires f in mine && f.ts.Some?
    ensures exists order: seq<Entry> :: multiset(order) == multiset(mine) && !Clashes(order)
  {
    var k :| 0 <= k < |mine| && mine[k] == f;
    ToFrontIsSame(mine, k);
    assert ToFront(mine, k)[0] == f;
    assert !Clashes(ToFront(mine, k));
  }

  // ---- and what the others show

  lemma SameStampsOf(a: seq<Entry>, b: seq<Entry>, fp: string)
    requires multiset(a) == multiset(b)
    ensures Stamps(Mine(a, fp)) == [] <==> Stamps(Mine(b, fp)) == []
    ensures |Mine(a, fp)| == |Mine(b, fp)|
  {
    SameEntriesSameStamps(a, b, fp);
    assert |Stamps(Mine(a, fp))| == |multiset(Stamps(Mine(a, fp)))|;
    assert |Stamps(Mine(b, fp))| == |multiset(Stamps(Mine(b, fp)))|;
  }

  lemma SameBounds(s: seq<string>, t: seq<string>, m: string, n: string)
    requires multiset(s) == multiset(t) && s != [] && t != [] && IsMax(m, s) && IsMax(n, t)
    ensures m == n
    ensures "" !in s ==> Smallest(s) == Smallest(t)
  {
    SameStampsSameBounds(s, t, m, n);
    SmallestOfStamps(s);
    SmallestOfStamps(t);
    assert forall x :: x in s <==> x in multiset(s);
    assert forall x :: x in t <==> x in multiset(t);
    if "" !in s { SameStampsSameBounds(s, t, Smallest(s).value, Smallest(t).value); }
  }

  /** In whatever order the same entries are read, as long as neither order makes the loop raise in this
    * group: the group is there in both, with the same count; if it has a text timestamp the same last one is
    * shown, and the same first one where none is empty; if it has none, the orders may show different things,
    * each the timestamp of its first entry. */
  lemma OrderDoesNotMatter(a: seq<Entry>, b: seq<Entry>, fp: string)
    requires multiset(a) == multiset(b) && !Clashes(Mine(a, fp)) && !Clashes(Mine(b, fp))
    ensures fp in Grouped(a).table <==> fp in Grouped(b).table
    ensures fp in Grouped(a).table ==>
              var mine, yours := Mine(a, fp), Mine(b, fp);
              && mine != [] && yours != []
              && Grouped(a).table[fp].count == Grouped(b).table[fp].count
              && (Stamps(mine) != [] ==>
                    && ShownLast(mine) == ShownLast(yours)
                    && ("" !in Stamps(mine) ==> ShownFirst(mine) == ShownFirst(yours)))
              && (Stamps(mine) == [] ==>
                    && ShownFirst(mine) == ShownLast(mine) == StartOf(mine)
                    && ShownFirst(yours) == ShownLast(yours) == StartOf(yours))
  {
    GroupFor(a, fp);
    GroupFor(b, fp);
    SameEntriesSameStamps(a, b, fp);
    SameStampsOf(a, b, fp);
    var mine, yours := Mine(a, fp), Mine(b, fp);
    if mine != [] {
      LastSeenIsMax(mine);
      LastSeenIsMax(yours);
      ShownBounds(mine);
      ShownBounds(yours);
      if Stamps(mine) != [] {
        SameBounds(Stamps(mine), Stamps(yours), ShownLast(mine).text, ShownLast(yours).text);
      }
    }
  }

  /** What a group without text timestamps shows. */
  function StartOf(mine: seq<Entry>): Shown
    requires mine != []
  {
    if Odd(mine[0]) then OddShown(mine[0]) else NothingShown
  }

  /** Two entries without text timestamps, two orders, two things shown. */
  lemma OddTimestampDependsOnOrder()
    ensures var a, b := Entry("x", None, true, ""), Entry("x", None, false, "");
            ShownFirst([a, b]) == OddShown(a) && ShownFirst([b, a]) == NothingShown
  {
    var a, b := Entry("x", None, true, ""), Entry("x", None, false, "");
    OddIsOfTheFirst([a, b]);
    OddIsOfTheFirst([b, a]);
    assert [a, b][..1] == [a] && [b, a][..1] == [b];
  }

  /** What the viewer shows for a fingerprint when the loop gets through: how many entries have it, the bounds
    * of their timestamps or the odd one it started with, and the latest entry with the last timestamp. */
  lemma GroupDescribesItsEntries(entries: seq<Entry>, fp: string)
    requires fp in Grouped(entries).table && !SomeGroupClashes(entries)
    ensures var g, mine := Grouped(entries).table[fp], Mine(entries, fp);
            && mine != [] && g == GroupOf(mine) && g.count == |mine|
            && (Stamps(mine) == [] ==> ShownFirst(mine) == ShownLast(mine) == StartOf(mine))
            && (Stamps(mine) != [] ==>
                  && ShownLast(mine).TextShown? && IsMax(ShownLast(mine).text, Stamps(mine))
                  && ShownFirst(mine).TextShown?
                  && ("" !in Stamps(mine) ==> IsMin(ShownFirst(mine).text, Stamps(mine))))
            && IsSample(g.sample, mine, g.lastSeen)
  {
    GroupFor(entries, fp);
    var mine := Mine(entries, fp);
    assert !Clashes(mine);
    LastSeenIsMax(mine);
    ShownBounds(mine);
    if Stamps(mine) != [] { SmallestOfStamps(Stamps(mine)); }
    SampleIsLatestOfLast(mine);
  }
}
