/**
 The program's registry: its 27 entries in order, and that they are sorted, hence
 distinct, and unlike any name given later.
 */
module RegistryTable {
  import opened History
  import opened Registry
  import N = Naming

  const ENTRIES: seq<Entry> := [
    Entry("activity", true), Entry("archiver", true), Entry("bgwriter", true), Entry("checkpointer", true),
    Entry("database", true), Entry("database_size", true), Entry("io", true), Entry("io_user_indexes", true),
    Entry("io_user_tables", true), Entry("locks", true), Entry("progress_analyze", true),
    Entry("progress_basebackup", true), Entry("progress_cluster", true), Entry("progress_copy", true),
    Entry("progress_create_index", true), Entry("progress_vacuum", true), Entry("replication", true),
    Entry("replication_slots", true), Entry("settings", false), Entry("slru", true), Entry("ssl", true),
    Entry("statements", false), Entry("subscription", false), Entry("user_indexes", true),
    Entry("user_tables", true), Entry("wal", true), Entry("wal_receiver", true)
  ]

  /** Byte-wise alphabetical order. */
  predicate Before(a: string, b: string) {
    b != "" && (a == "" || a[0] < b[0] || (a[0] == b[0] && Before(a[1..], b[1..])))
  }

  lemma {:induction false} BeforeTransitive(a: string, b: string, c: string)
    requires Before(a, b) && Before(b, c)
    ensures Before(a, c)
  {
    if a != "" && a[0] == b[0] == c[0] { BeforeTransitive(a[1..], b[1..], c[1..]); }
  }

  lemma {:induction false} BeforeIrreflexive(a: string)
    ensures !Before(a, a)
  {
    if a != "" { BeforeIrreflexive(a[1..]); }
  }

  /** Names that differ first at position `k`, where the earlier one may also end. */
  lemma {:induction false} BeforeAt(a: string, b: string, k: nat)
    requires k <= |a| && k < |b| && a[..k] == b[..k] && (k == |a| || a[k] < b[k])
    ensures Before(a, b)
  {
    if k > 0 {
      assert a[0] == a[..k][0] && b[0] == b[..k][0];
      assert a[1..][..k - 1] == a[..k][1..] && b[1..][..k - 1] == b[..k][1..];
      BeforeAt(a[1..], b[1..], k - 1);
    }
  }

  /** Neighbours from `from` up to `to` are in order. */
  ghost predicate Ordered(es: seq<Entry>, from: nat, to: nat)
    requires to < |es|
  {
    forall i :: from <= i < to ==> Before(es[i].name, es[i + 1].name)
  }

  lemma {:induction false} OrderedApart(es: seq<Entry>, i: nat, j: nat)
    requires i < j < |es| && Ordered(es, 0, |es| - 1)
    ensures Before(es[i].name, es[j].name)
  {
    if i + 1 < j {
      OrderedApart(es, i, j - 1);
      BeforeTransitive(es[i].name, es[j - 1].name, es[j].name);
    }
  }

  /** A sorted registry repeats no name. */
  lemma {:induction false} OrderedDistinct(es: seq<Entry>)
    requires es != [] && Ordered(es, 0, |es| - 1)
    ensures Distinct(es)
  {
    forall i, j | 0 <= i < j < |es| ensures es[i].name != es[j].name {
      OrderedApart(es, i, j);
      BeforeIrreflexive(es[i].name);
    }
  }

  /** A name no later call gives: it starts neither like a custom one nor like a spec's. */
  predicate Unlike(name: string) {
    |name| > 1 && (name[0] != 'c' || name[1] != 'u') && (name[0] != 's' || name[1] != 'p')
  }

  lemma UnlikeIsPlain(name: string)
    requires Unlike(name)
    ensures N.Plain(name)
  {
    assert N.CUSTOM[0] == 'c' && N.CUSTOM[1] == 'u' && N.SPEC[0] == 's' && N.SPEC[1] == 'p';
  }

  ghost predicate Chained(es: seq<Entry>, i: nat)
    requires i + 1 < |es|
  {
    Before(es[i].name, es[i + 1].name) && Unlike(es[i].name)
  }

  lemma {:induction false} ChainedDistinct(es: seq<Entry>)
    requires es != [] && Unlike(es[|es| - 1].name) && forall i :: 0 <= i < |es| - 1 ==> Chained(es, i)
    ensures Distinct(es) && forall i :: 0 <= i < |es| ==> N.Plain(es[i].name)
  {
    assert forall i :: 0 <= i < |es| - 1 ==> Chained(es, i) ==> Before(es[i].name, es[i + 1].name);
    OrderedDistinct(es);
    forall i | 0 <= i < |es| ensures N.Plain(es[i].name) {
      if i < |es| - 1 { assert Chained(es, i); }
      UnlikeIsPlain(es[i].name);
    }
  }

  lemma OrderA(i: nat)
    requires 0 <= i < 2
    ensures Chained(ENTRIES, i)
  {
    match i
    case 0 => BeforeAt(ENTRIES[0].name, ENTRIES[1].name, 1);
    case 1 => BeforeAt(ENTRIES[1].name, ENTRIES[2].name, 0);
  }

  lemma OrderB(i: nat)
    requires 2 <= i < 4
    ensures Chained(ENTRIES, i)
  {
    match i
    case 2 => BeforeAt(ENTRIES[2].name, ENTRIES[3].name, 0);
    case 3 => BeforeAt(ENTRIES[3].name, ENTRIES[4].name, 0);
  }

  lemma OrderC(i: nat)
    requires 4 <= i < 6
    ensures Chained(ENTRIES, i)
  {
    match i
    case 4 => BeforeAt(ENTRIES[4].name, ENTRIES[5].name, 8);
    case 5 => BeforeAt(ENTRIES[5].name, ENTRIES[6].name, 0);
  }

  lemma OrderD(i: nat)
    requires 6 <= i < 8
    ensures Chained(ENTRIES, i)
  {
    match i
    case 6 => BeforeAt(ENTRIES[6].name, ENTRIES[7].name, 2);
    case 7 => BeforeAt(ENTRIES[7].name, ENTRIES[8].name, 8);
  }

  lemma OrderE(i: nat)
    requires 8 <= i < 10
    ensures Chained(ENTRIES, i)
  {
    match i
    case 8 => BeforeAt(ENTRIES[8].name, ENTRIES[9].name, 0);
    case 9 => BeforeAt(ENTRIES[9].name, ENTRIES[10].name, 0);
  }

  lemma OrderF(i: nat)
    requires 10 <= i < 12
    ensures Chained(ENTRIES, i)
  {
    match i
    case 10 => BeforeAt(ENTRIES[10].name, ENTRIES[11].name, 9);
    case 11 => BeforeAt(ENTRIES[11].name, ENTRIES[12].name, 9);
  }

  lemma OrderG(i: nat)
    requires 12 <= i < 14
    ensures Chained(ENTRIES, i)
  {
    match i
    case 12 => BeforeAt(ENTRIES[12].name, ENTRIES[13].name, 10);
    case 13 => BeforeAt(ENTRIES[13].name, ENTRIES[14].name, 10);
  }

  lemma OrderH(i: nat)
    requires 14 <= i < 16
    ensures Chained(ENTRIES, i)
  {
    match i
    case 14 => BeforeAt(ENTRIES[14].name, ENTRIES[15].name, 9);
    case 15 => BeforeAt(ENTRIES[15].name, ENTRIES[16].name, 0);
  }

  lemma OrderI(i: nat)
    requires 16 <= i < 18
    ensures Chained(ENTRIES, i)
  {
    match i
    case 16 => BeforeAt(ENTRIES[16].name, ENTRIES[17].name, 11);
    case 17 => BeforeAt(ENTRIES[17].name, ENTRIES[18].name, 0);
  }

  lemma OrderJ(i: nat)
    requires 18 <= i < 20
    ensures Chained(ENTRIES, i)
  {
    match i
    case 18 => BeforeAt(ENTRIES[18].name, ENTRIES[19].name, 1);
    case 19 => BeforeAt(ENTRIES[19].name, ENTRIES[20].name, 1);
  }

  lemma OrderK(i: nat)
    requires 20 <= i < 22
    ensures Chained(ENTRIES, i)
  {
    match i
    case 20 => BeforeAt(ENTRIES[20].name, ENTRIES[21].name, 1);
    case 21 => BeforeAt(ENTRIES[21].name, ENTRIES[22].name, 1);
  }

  lemma OrderL(i: nat)
    requires 22 <= i < 24
    ensures Chained(ENTRIES, i)
  {
    match i
    case 22 => BeforeAt(ENTRIES[22].name, ENTRIES[23].name, 0);
    case 23 => BeforeAt(ENTRIES[23].name, ENTRIES[24].name, 5);
  }

  lemma OrderM(i: nat)
    requires 24 <= i < 26
    ensures Chained(ENTRIES, i)
  {
    match i
    case 24 => BeforeAt(ENTRIES[24].name, ENTRIES[25].name, 0);
    case 25 => BeforeAt(ENTRIES[25].name, ENTRIES[26].name, 3);
  }

  lemma LastEntry()
    ensures |ENTRIES| == 27 && Unlike(ENTRIES[26].name)
  {
    assert ENTRIES[26].name == "wal_receiver";
  }

  /** The registry is sorted, as its documentation says. */
  lemma EntriesSorted()
    ensures |ENTRIES| == 27 && Unlike(ENTRIES[26].name) && forall i :: 0 <= i < 26 ==> Chained(ENTRIES, i)
  {
    LastEntry();
    forall i: nat | i < 26 ensures Chained(ENTRIES, i) {
      match i / 2
      case 0 => OrderA(i);
      case 1 => OrderB(i);
      case 2 => OrderC(i);
      case 3 => OrderD(i);
      case 4 => OrderE(i);
      case 5 => OrderF(i);
      case 6 => OrderG(i);
      case 7 => OrderH(i);
      case 8 => OrderI(i);
      case 9 => OrderJ(i);
      case 10 => OrderK(i);
      case 11 => OrderL(i);
      case 12 => OrderM(i);
    }
  }

  /** No name is registered twice, and none can be given by a later call. */
  lemma EntriesDistinct()
    ensures Distinct(ENTRIES) && forall i :: 0 <= i < |ENTRIES| ==> N.Plain(ENTRIES[i].name)
  {
    EntriesSorted();
    ChainedDistinct(ENTRIES);
  }

  /** Whatever is enabled and disabled, the resolved names meet the conditions of Naming.NamesDistinctIff. */
  lemma {:induction false} ResolvedNames(enabled: seq<string>, disabled: seq<string>)
    ensures var out := Selection(ENTRIES, enabled, disabled); N.AllPlain(out) && N.AllDistinct(out)
  {
    EntriesDistinct();
    SelectedNames(ENTRIES, enabled, disabled);
  }

  lemma {:induction false} SelectedNames(es: seq<Entry>, enabled: seq<string>, disabled: seq<string>)
    requires Distinct(es) && forall i :: 0 <= i < |es| ==> N.Plain(es[i].name)
    ensures var out := Selection(es, enabled, disabled); N.AllPlain(out) && N.AllDistinct(out)
  {
    var at := SelectionOrdered(es, enabled, disabled);
  }

  /**
   The program as a whole: whatever collectors are chosen and whatever calls extend the
   exporter, all names are distinct exactly when no two custom calls clash and no two
   YAML specs share a subsystem.
   */
  lemma ProgramNamesDistinctIff(enabled: seq<string>, disabled: seq<string>, steps: seq<N.Step>)
    ensures var resolved := Selection(ENTRIES, enabled, disabled);
      N.AllDistinct(N.NamesAfter(resolved, steps, |steps|)) <==>
        && (forall a, b :: 0 <= a < b < |steps| ==> !N.Clash(|resolved|, steps, a, b))
        && N.AllDistinct(N.SubsystemsAfter(steps, |steps|))
  {
    ResolvedNames(enabled, disabled);
    N.NamesDistinctIff(Selection(ENTRIES, enabled, disabled), steps);
  }

  lemma OffByDefault()
    ensures ENTRIES[18].name == "settings" && ENTRIES[21].name == "statements" && ENTRIES[22].name == "subscription"
    ensures forall i :: 0 <= i < 27 ==> (ENTRIES[i].isDefault <==> i != 18 && i != 21 && i != 22)
  {
  }

  /** With nothing listed, all 27 run but settings, statements and subscription. */
  lemma {:induction false} DefaultSelection(i: nat)
    requires i < 27
    ensures ENTRIES[18].name == "settings" && ENTRIES[21].name == "statements" && ENTRIES[22].name == "subscription"
    ensures ENTRIES[i].name in Selection(ENTRIES, [], []) <==> i != 18 && i != 21 && i != 22
  {
    OffByDefault();
    EntriesDistinct();
    SelectionMembers(ENTRIES, [], [], ENTRIES[i].name);
  }
}
