/**
 * Seeding the blueprint magazine (scrapegoat/scripts/seed_magazine_blueprints.py):
 * a fixed list of people-search sites, each with a starter blueprint, is
 * committed one domain after another. A commit that raises stops the run.
 */
module SeedMagazine {
  import opened Wrappers
  import opened Json
  import Redis
  import opened BlueprintCommit

  /** One magazine entry: the domain and its starter blueprint. */
  datatype SeedEntry = SeedEntry(domain: string, blueprint: map<string, Json>)

  /** A starter blueprint: the site's URL, its search-input and result selectors, and an empty extraction. */
  function Starter(targetUrl: string, nameSelector: string, resultSelector: Option<string>): map<string, Json> {
    map[
      "targetUrl" := JStr(targetUrl),
      "name_selector" := JStr(nameSelector),
      "result_selector" := if resultSelector.Some? then JStr(resultSelector.value) else JNull,
      "extraction" := JObj(map[])]
  }

  /** The magazine's domains, in the order they are seeded. */
  const MagazineDomains: seq<string> := [
    "fastpeoplesearch.com", "truepeoplesearch.com", "zabasearch.com", "searchpeoplefree.com", "thatsthem.com",
    "anywho.com"]

  /** Their starter blueprints: only the first two sites have a result selector. */
  const MagazineBlueprints: seq<map<string, Json>> := [
    Starter("https://www.fastpeoplesearch.com/", "input#name-search", Some("div.search-item")),
    Starter("https://www.truepeoplesearch.com/", "input#search-name", Some("div.card-summary")),
    Starter("https://www.zabasearch.com/", "input[name='q']", None),
    Starter("https://www.searchpeoplefree.com/", "input[name='q']", None),
    Starter("https://thatsthem.com/", "input[name='q']", None),
    Starter("https://www.anywho.com/", "input[name='q']", None)]

  /** `MAGAZINE`: the (domain, blueprint) pairs. */
  const Magazine: seq<SeedEntry> := seq(6, i requires 0 <= i < 6 => SeedEntry(MagazineDomains[i], MagazineBlueprints[i]))

  /** A starter blueprint commits with an empty extraction map. */
  lemma StarterExtraction(targetUrl: string, nameSelector: string, resultSelector: Option<string>)
    ensures ExtractionOf(Starter(targetUrl, nameSelector, resultSelector)) == JObj(map[])
  {
  }

  /**
   * The hash fields a starter blueprint commits are its URL and selectors;
   * a `None` result selector is stored as "".
   */
  lemma StarterFields(targetUrl: string, nameSelector: string, resultSelector: Option<string>)
    ensures var bp := Starter(targetUrl, nameSelector, resultSelector);
            TargetUrl(bp) == targetUrl && NameSelector(bp, map[]) == nameSelector
            && ResultSelector(bp, map[]) == (if resultSelector.Some? then resultSelector.value else "")
  {
  }

  /**
   * Domains that are pairwise distinct and hold no ':' (so no key of one
   * is a key of another), and blueprints whose extraction is a dictionary.
   */
  predicate WellFormed(es: seq<SeedEntry>) {
    (forall i, j :: 0 <= i < j < |es| ==> es[i].domain != es[j].domain)
    && (forall i :: 0 <= i < |es| ==> ':' !in es[i].domain && ExtractionOf(es[i].blueprint).JObj?)
  }

  lemma MagazineWellFormed()
    ensures |Magazine| == 6 && WellFormed(Magazine)
  {
    MagazineDistinct();
    MagazineColonFree();
    forall i | 0 <= i < |Magazine| ensures ExtractionOf(Magazine[i].blueprint).JObj? {
      EntryExtraction(i);
    }
  }

  /** The entries after the first are well formed. */
  lemma WellFormedTail(es: seq<SeedEntry>)
    requires WellFormed(es) && es != []
    ensures WellFormed(es[1..])
  {
    assert forall i :: 0 <= i < |es[1..]| ==> es[1..][i] == es[i + 1];
  }

  /** No entry after the first has the first one's domain. */
  lemma HeadNotInTail(es: seq<SeedEntry>)
    requires WellFormed(es) && es != []
    ensures forall i :: 0 <= i < |es[1..]| ==> es[1..][i].domain != es[0].domain
  {
    assert forall i :: 0 <= i < |es[1..]| ==> es[1..][i] == es[i + 1];
  }

  lemma MagazineDistinct()
    ensures forall i, j :: 0 <= i < j < |Magazine| ==> Magazine[i].domain != Magazine[j].domain
  {
    DomainsDistinct();
    assert forall i :: 0 <= i < |Magazine| ==> Magazine[i].domain == MagazineDomains[i];
  }

  lemma DomainsDistinct()
    ensures forall i, j :: 0 <= i < j < |MagazineDomains| ==> MagazineDomains[i] != MagazineDomains[j]
  {
    var ds := MagazineDomains;
    assert ds[0][0] == 'f' && ds[1][0] == 't' && ds[2][0] == 'z' && ds[3][0] == 's' && ds[4][0] == 't' && ds[5][0] == 'a';
    assert ds[1][1] == 'r' && ds[4][1] == 'h';
  }

  lemma MagazineColonFree()
    ensures forall i :: 0 <= i < |Magazine| ==> ':' !in Magazine[i].domain
  {
    forall i | 0 <= i < |Magazine| ensures ':' !in Magazine[i].domain {
      assert Magazine[i].domain == MagazineDomains[i];
      DomainColonFree(i);
    }
  }

  lemma EntryExtraction(i: nat)
    requires i < |Magazine|
    ensures ExtractionOf(Magazine[i].blueprint).JObj?
  {
    assert Magazine[i].blueprint == MagazineBlueprints[i];
    if i == 0 {
      StarterExtraction("https://www.fastpeoplesearch.com/", "input#name-search", Some("div.search-item"));
    } else if i == 1 {
      StarterExtraction("https://www.truepeoplesearch.com/", "input#search-name", Some("div.card-summary"));
    } else if i == 2 {
      StarterExtraction("https://www.zabasearch.com/", "input[name='q']", None);
    } else if i == 3 {
      StarterExtraction("https://www.searchpeoplefree.com/", "input[name='q']", None);
    } else if i == 4 {
      StarterExtraction("https://thatsthem.com/", "input[name='q']", None);
    } else {
      StarterExtraction("https://www.anywho.com/", "input[name='q']", None);
    }
  }

  lemma DomainColonFree(i: nat)
    requires i < |MagazineDomains|
    ensures ':' !in MagazineDomains[i]
  {
    if i == 0 {
      assert ':' !in "fastpeoplesearch.com";
    } else if i == 1 {
      assert ':' !in "truepeoplesearch.com";
    } else if i == 2 {
      assert ':' !in "zabasearch.com";
    } else if i == 3 {
      assert ':' !in "searchpeoplefree.com";
    } else if i == 4 {
      assert ':' !in "thatsthem.com";
    } else {
      assert ':' !in "anywho.com";
    }
  }

  /**
   * The `for domain, bp in MAGAZINE` loop: how many domains were seeded
   * (the first ones, in order) and the store after the last commit made.
   * `writable(d)` says whether the blueprint file of `d` can be written;
   * a commit that raises stops the run, leaving what it wrote before.
   */
  function SeedAll(db: Redis.Db, es: seq<SeedEntry>, now: string, dumps: Json -> string, writable: string -> bool)
    : (r: (nat, Redis.Db))
    ensures r.0 <= |es|
    decreases |es|
  {
    if es == [] then (0, db)
    else
      var c := Commit(db, es[0].domain, es[0].blueprint, now, dumps, writable(es[0].domain));
      if c.0 != Committed then (0, c.1)
      else
        var rest := SeedAll(c.1, es[1..], now, dumps, writable);
        (1 + rest.0, rest.1)
  }

  /** A completed commit of entry `i` counts it and carries on with the next entry. */
  lemma SeedAllAdvance(x: Redis.Db, y: Redis.Db, es: seq<SeedEntry>, i: nat, now: string, dumps: Json -> string,
                       writable: string -> bool)
    requires i < |es|
    requires Commit(x, es[i].domain, es[i].blueprint, now, dumps, writable(es[i].domain)).0 == Committed
    requires Commit(x, es[i].domain, es[i].blueprint, now, dumps, writable(es[i].domain)).1 == y
    ensures SeedAll(x, es[i..], now, dumps, writable).0 == 1 + SeedAll(y, es[i + 1..], now, dumps, writable).0
    ensures SeedAll(x, es[i..], now, dumps, writable).1 == SeedAll(y, es[i + 1..], now, dumps, writable).1
  {
    assert es[i..][1..] == es[i + 1..];
  }

  /** A commit of entry `i` that raises ends the run there. */
  lemma SeedAllHalts(x: Redis.Db, es: seq<SeedEntry>, i: nat, now: string, dumps: Json -> string, writable: string -> bool)
    requires i < |es|
    requires Commit(x, es[i].domain, es[i].blueprint, now, dumps, writable(es[i].domain)).0 != Committed
    ensures SeedAll(x, es[i..], now, dumps, writable).0 == 0
    ensures SeedAll(x, es[i..], now, dumps, writable).1
            == Commit(x, es[i].domain, es[i].blueprint, now, dumps, writable(es[i].domain)).1
  {
  }

  /** With every file writable, every entry is seeded. */
  lemma {:induction false} SeedAllSeedsEvery(db: Redis.Db, es: seq<SeedEntry>, now: string, dumps: Json -> string,
                                             writable: string -> bool)
    requires forall i :: 0 <= i < |es| ==> writable(es[i].domain) && ExtractionOf(es[i].blueprint).JObj?
    ensures SeedAll(db, es, now, dumps, writable).0 == |es|
    decreases |es|
  {
    if es != [] {
      var c := Commit(db, es[0].domain, es[0].blueprint, now, dumps, true);
      CommitEntryCompletes(db, es[0], now, dumps);
      SeedAllSeedsEvery(c.1, es[1..], now, dumps, writable);
    }
  }

  /** A file that cannot be written stops the run at its entry: only the entries before it count as seeded. */
  lemma {:induction false} SeedAllStopsAtFailure(db: Redis.Db, es: seq<SeedEntry>, k: nat, now: string,
                                                 dumps: Json -> string, writable: string -> bool)
    requires k < |es| && !writable(es[k].domain)
    requires forall i :: 0 <= i < k ==> writable(es[i].domain) && ExtractionOf(es[i].blueprint).JObj?
    ensures SeedAll(db, es, now, dumps, writable).0 == k
    decreases k
  {
    if k > 0 {
      var c := Commit(db, es[0].domain, es[0].blueprint, now, dumps, true);
      CommitEntryCompletes(db, es[0], now, dumps);
      SeedAllStopsAtFailure(c.1, es[1..], k - 1, now, dumps, writable);
    }
  }

  // ---------------------------------------------------------------------
  // A completed commit on keys given as parameters
  // ---------------------------------------------------------------------

  /** The store after a completed commit: hash `bk` gets `m`, then `FinishAt`. */
  function CommitAt(x: Redis.Db, bk: string, ak: string, pk: string, nk: string, member: string, m: map<string, string>)
    : Redis.Db
  {
    FinishAt(x.HSet(bk, m), ak, pk, nk, member)
  }

  /** The hash fields committed for an entry. */
  function EntryMapping(e: SeedEntry, now: string, dumps: Json -> string): map<string, string>
    requires ExtractionOf(e.blueprint).JObj?
  {
    Mapping(e.blueprint, ExtractionOf(e.blueprint), now, dumps)
  }

  /** Committing an entry whose extraction is a dictionary and whose file is writable completes. */
  lemma CommitEntryCompletes(db: Redis.Db, e: SeedEntry, now: string, dumps: Json -> string)
    requires ExtractionOf(e.blueprint).JObj?
    ensures Commit(db, e.domain, e.blueprint, now, dumps, true).0 == Committed
  {
  }

  /** The store after such a commit, on the domain's keys. */
  lemma CommitEntry(db: Redis.Db, e: SeedEntry, now: string, dumps: Json -> string)
    requires ExtractionOf(e.blueprint).JObj?
    ensures Commit(db, e.domain, e.blueprint, now, dumps, true).1
            == CommitAt(db, BlueprintKey(e.domain), ActiveKey(e.domain), PendingKey(e.domain),
                        NeedMappingKey, e.domain, EntryMapping(e, now, dumps))
  {
  }

  /** A colon-free domain's blueprint key is no other domain's draft key. */
  lemma BlueprintNotPending(d1: string, d2: string)
    requires ':' !in d1
    ensures BlueprintKey(d1) != PendingKey(d2)
  {
    assert BlueprintKey(d1)[10..] == d1;
    assert PendingKey(d2)[10..] == d2 + ":pending";
    assert (d2 + ":pending")[|d2|] == ':';
  }

  /** The keys of two different domains are different. */
  lemma DomainKeysDiffer(d1: string, d2: string)
    requires d1 != d2
    ensures BlueprintKey(d1) != BlueprintKey(d2)
    ensures ActiveKey(d1) != ActiveKey(d2) && ActiveKey(d1) != PendingKey(d2)
    ensures PendingKey(d1) != PendingKey(d2)
  {
    assert BlueprintKey(d1)[10..] == d1 && BlueprintKey(d2)[10..] == d2;
    assert ActiveKey(d1)[19..] == d1 && ActiveKey(d2)[19..] == d2;
    assert ActiveKey(d1)[0] == 'd' && PendingKey(d2)[0] == 'b';
    assert PendingKey(d1)[10..10 + |d1|] == d1 && PendingKey(d2)[10..10 + |d2|] == d2;
    assert |PendingKey(d1)| == |d1| + 18 && |PendingKey(d2)| == |d2| + 18;
  }

  // ---------------------------------------------------------------------
  // Commits of two different domains commute
  // ---------------------------------------------------------------------

  /** The strings after marking `a1` then `a2` active (and deleting the drafts), in either order. */
  lemma StringsCommute(s: map<string, string>, a1: string, p1: string, a2: string, p2: string)
    requires a1 != a2 && a1 != p2 && a2 != p1
    ensures ((s - {a1, p1})[a1 := "1"] - {a2, p2})[a2 := "1"] == ((s - {a2, p2})[a2 := "1"] - {a1, p1})[a1 := "1"]
  {
  }

  lemma HashesCommute(h: map<string, map<string, string>>, b1: string, a1: string, p1: string, v1: map<string, string>,
                      b2: string, a2: string, p2: string, v2: map<string, string>)
    requires b1 != b2 && b1 != a2 && b1 != p2 && b2 != a1 && b2 != p1
    ensures (h[b1 := v1] - {a1, p1})[b2 := v2] - {a2, p2} == (h[b2 := v2] - {a2, p2})[b1 := v1] - {a1, p1}
  {
  }

  /** The sets after finishing `member` at the need-mapping key `nk`, in normal form. */
  function SetsAfter(s: map<string, set<string>>, gone: set<string>, nk: string, rest: set<string>)
    : map<string, set<string>>
  {
    if rest == {} then s - gone - {nk} else (s - gone)[nk := rest]
  }

  lemma SetsFinishTwice(x: Redis.Db, a1: string, p1: string, a2: string, p2: string, nk: string, m1: string, m2: string)
    requires nk != a1 && nk != p1 && nk != a2 && nk != p2
    ensures FinishAt(FinishAt(x, a1, p1, nk, m1), a2, p2, nk, m2).sets
            == SetsAfter(x.sets, {a1, p1, a2, p2}, nk, x.Members(nk) - {m1, m2})
  {
    var y := FinishAt(x, a1, p1, nk, m1);
    assert y.Members(nk) == x.Members(nk) - {m1};
    assert y.Members(nk) - {m2} == x.Members(nk) - {m1, m2};
  }

  lemma CommitsCommute(x: Redis.Db, b1: string, a1: string, p1: string, m1: map<string, string>, d1: string,
                       b2: string, a2: string, p2: string, m2: map<string, string>, d2: string, nk: string)
    requires b1 != b2 && b1 != a2 && b1 != p2 && b2 != a1 && b2 != p1
    requires a1 != a2 && a1 != p2 && a2 != p1
    requires nk != a1 && nk != p1 && nk != a2 && nk != p2
    ensures CommitAt(CommitAt(x, b1, a1, p1, nk, d1, m1), b2, a2, p2, nk, d2, m2)
            == CommitAt(CommitAt(x, b2, a2, p2, nk, d2, m2), b1, a1, p1, nk, d1, m1)
  {
    var l := CommitAt(CommitAt(x, b1, a1, p1, nk, d1, m1), b2, a2, p2, nk, d2, m2);
    var r := CommitAt(CommitAt(x, b2, a2, p2, nk, d2, m2), b1, a1, p1, nk, d1, m1);
    StringsCommute(x.strings, a1, p1, a2, p2);
    CommitsCommuteHashes(x, b1, a1, p1, m1, d1, b2, a2, p2, m2, d2, nk);
    CommitsCommuteSets(x, b1, a1, p1, m1, d1, b2, a2, p2, m2, d2, nk);
    DbEqual(l, r);
  }

  lemma CommitsCommuteHashes(x: Redis.Db, b1: string, a1: string, p1: string, m1: map<string, string>, d1: string,
                             b2: string, a2: string, p2: string, m2: map<string, string>, d2: string, nk: string)
    requires b1 != b2 && b1 != a2 && b1 != p2 && b2 != a1 && b2 != p1
    ensures CommitAt(CommitAt(x, b1, a1, p1, nk, d1, m1), b2, a2, p2, nk, d2, m2).hashes
            == CommitAt(CommitAt(x, b2, a2, p2, nk, d2, m2), b1, a1, p1, nk, d1, m1).hashes
  {
    var y1 := CommitAt(x, b1, a1, p1, nk, d1, m1);
    var y2 := CommitAt(x, b2, a2, p2, nk, d2, m2);
    assert y1.HGetAll(b2) == x.HGetAll(b2) && y2.HGetAll(b1) == x.HGetAll(b1);
    HashesCommute(x.hashes, b1, a1, p1, x.HGetAll(b1) + m1, b2, a2, p2, x.HGetAll(b2) + m2);
  }

  lemma CommitsCommuteSets(x: Redis.Db, b1: string, a1: string, p1: string, m1: map<string, string>, d1: string,
                           b2: string, a2: string, p2: string, m2: map<string, string>, d2: string, nk: string)
    requires nk != a1 && nk != p1 && nk != a2 && nk != p2
    ensures CommitAt(CommitAt(x, b1, a1, p1, nk, d1, m1), b2, a2, p2, nk, d2, m2).sets
            == CommitAt(CommitAt(x, b2, a2, p2, nk, d2, m2), b1, a1, p1, nk, d1, m1).sets
  {
    CommitTwiceSets(x, b1, a1, p1, m1, d1, b2, a2, p2, m2, d2, nk);
    CommitTwiceSets(x, b2, a2, p2, m2, d2, b1, a1, p1, m1, d1, nk);
    SetsFinishTwice(x, a1, p1, a2, p2, nk, d1, d2);
    SetsFinishTwice(x, a2, p2, a1, p1, nk, d2, d1);
    assert {a1, p1, a2, p2} == {a2, p2, a1, p1} && x.Members(nk) - {d1, d2} == x.Members(nk) - {d2, d1};
  }

  /** Hash writes leave the sets alone: two commits change the sets as two finishes do. */
  lemma CommitTwiceSets(x: Redis.Db, b1: string, a1: string, p1: string, m1: map<string, string>, d1: string,
                        b2: string, a2: string, p2: string, m2: map<string, string>, d2: string, nk: string)
    ensures CommitAt(CommitAt(x, b1, a1, p1, nk, d1, m1), b2, a2, p2, nk, d2, m2).sets
            == FinishAt(FinishAt(x, a1, p1, nk, d1), a2, p2, nk, d2).sets
  {
    var y := CommitAt(x, b1, a1, p1, nk, d1, m1);
    FinishSetsOnly(x.HSet(b1, m1), x, a1, p1, nk, d1);
    FinishSetsOnly(y.HSet(b2, m2), FinishAt(x, a1, p1, nk, d1), a2, p2, nk, d2);
  }

  lemma FinishSetsOnly(y: Redis.Db, z: Redis.Db, ak: string, pk: string, nk: string, member: string)
    requires y.sets == z.sets
    ensures FinishAt(y, ak, pk, nk, member).sets == FinishAt(z, ak, pk, nk, member).sets
  {
    assert y.Members(nk) == z.Members(nk);
  }

  /** A completed commit of one entry and of another entry with a different domain commute. */
  lemma EntryCommitsCommute(x: Redis.Db, e1: SeedEntry, e2: SeedEntry, t1: string, t2: string, dumps: Json -> string)
    requires e1.domain != e2.domain && ':' !in e1.domain && ':' !in e2.domain
    requires ExtractionOf(e1.blueprint).JObj? && ExtractionOf(e2.blueprint).JObj?
    ensures Commit(Commit(x, e1.domain, e1.blueprint, t1, dumps, true).1, e2.domain, e2.blueprint, t2, dumps, true).1
            == Commit(Commit(x, e2.domain, e2.blueprint, t2, dumps, true).1, e1.domain, e1.blueprint, t1, dumps, true).1
  {
    var d1, d2 := e1.domain, e2.domain;
    KeysDiffer(d1, d2);
    KeysDiffer(d2, d1);
    KeysDiffer(d1, d1);
    KeysDiffer(d2, d2);
    DomainKeysDiffer(d1, d2);
    DomainKeysDiffer(d2, d1);
    BlueprintNotPending(d1, d2);
    BlueprintNotPending(d2, d1);
    CommitEntry(x, e1, t1, dumps);
    CommitEntry(x, e2, t2, dumps);
    CommitEntry(Commit(x, d1, e1.blueprint, t1, dumps, true).1, e2, t2, dumps);
    CommitEntry(Commit(x, d2, e2.blueprint, t2, dumps, true).1, e1, t1, dumps);
    CommitsCommute(x, BlueprintKey(d1), ActiveKey(d1), PendingKey(d1), EntryMapping(e1, t1, dumps), d1,
                   BlueprintKey(d2), ActiveKey(d2), PendingKey(d2), EntryMapping(e2, t2, dumps), d2,
                   NeedMappingKey);
  }

  /** A run whose first commit completes is that commit followed by the run over the rest. */
  lemma SeedAllFirst(x: Redis.Db, es: seq<SeedEntry>, t: string, dumps: Json -> string, writable: string -> bool)
    requires es != [] && writable(es[0].domain)
    requires Commit(x, es[0].domain, es[0].blueprint, t, dumps, true).0 == Committed
    ensures SeedAll(x, es, t, dumps, writable).1
            == SeedAll(Commit(x, es[0].domain, es[0].blueprint, t, dumps, true).1, es[1..], t, dumps, writable).1
  {
  }

  /** A run after committing `e` is, when its first entry completes, the rest of the run after both commits. */
  lemma CommitThenFirst(x: Redis.Db, e: SeedEntry, es: seq<SeedEntry>, t: string, te: string,
                        dumps: Json -> string, writable: string -> bool)
    requires es != [] && writable(es[0].domain)
    requires ':' !in e.domain && ':' !in es[0].domain && es[0].domain != e.domain
    requires ExtractionOf(e.blueprint).JObj? && ExtractionOf(es[0].blueprint).JObj?
    ensures SeedAll(Commit(x, e.domain, e.blueprint, te, dumps, true).1, es, t, dumps, writable).1
            == SeedAll(Commit(Commit(x, es[0].domain, es[0].blueprint, t, dumps, true).1,
                              e.domain, e.blueprint, te, dumps, true).1, es[1..], t, dumps, writable).1
  {
    var ce := Commit(x, e.domain, e.blueprint, te, dumps, true).1;
    CommitEntryCompletes(ce, es[0], t, dumps);
    SeedAllFirst(ce, es, t, dumps, writable);
    EntryCommitsCommute(x, e, es[0], te, t, dumps);
  }

  /** An entry committed before a run over other domains could as well be committed after it. */
  lemma {:induction false} CommitPastRun(x: Redis.Db, e: SeedEntry, es: seq<SeedEntry>, t: string, te: string,
                                         dumps: Json -> string, writable: string -> bool)
    requires forall d :: writable(d)
    requires WellFormed(es) && ':' !in e.domain && ExtractionOf(e.blueprint).JObj?
    requires forall i :: 0 <= i < |es| ==> es[i].domain != e.domain
    ensures SeedAll(Commit(x, e.domain, e.blueprint, te, dumps, true).1, es, t, dumps, writable).1
            == Commit(SeedAll(x, es, t, dumps, writable).1, e.domain, e.blueprint, te, dumps, true).1
    decreases |es|
  {
    if es != [] {
      var y := Commit(x, es[0].domain, es[0].blueprint, t, dumps, true).1;
      assert writable(es[0].domain) && ':' !in es[0].domain && ExtractionOf(es[0].blueprint).JObj?;
      CommitEntryCompletes(x, es[0], t, dumps);
      WellFormedTail(es);
      CommitPastRun(y, e, es[1..], t, te, dumps, writable);
      CommitThenFirst(x, e, es, t, te, dumps, writable);
      SeedAllFirst(x, es, t, dumps, writable);
    }
  }

  /**
   * Running the seeder a second time, at a later clock reading, leaves the
   * store as a single run at that reading: every commit of the first run
   * is overwritten by the second.
   */
  lemma {:induction false} SeedAllIdempotent(db: Redis.Db, es: seq<SeedEntry>, t1: string, t2: string,
                                             dumps: Json -> string, writable: string -> bool)
    requires forall d :: writable(d)
    requires WellFormed(es)
    ensures SeedAll(SeedAll(db, es, t1, dumps, writable).1, es, t2, dumps, writable).1
            == SeedAll(db, es, t2, dumps, writable).1
    decreases |es|
  {
    if es != [] {
      var e, rest := es[0], es[1..];
      WellFormedTail(es);
      HeadNotInTail(es);
      CommitEntryCompletes(db, e, t1, dumps);
      CommitEntryCompletes(db, e, t2, dumps);
      var c1 := Commit(db, e.domain, e.blueprint, t1, dumps, true).1;
      var once := SeedAll(c1, rest, t1, dumps, writable).1;
      CommitEntryCompletes(once, e, t2, dumps);
      // The second run commits `e` over the first run's store; move it past the first run's rest.
      CommitPastRun(c1, e, rest, t1, t2, dumps, writable);
      CommitIdempotent(db, e.domain, e.blueprint, t1, t2, dumps);
      var c2 := Commit(db, e.domain, e.blueprint, t2, dumps, true).1;
      SeedAllIdempotent(c2, rest, t1, t2, dumps, writable);
    }
  }

  // ---------------------------------------------------------------------
  // What a seeded domain holds
  // ---------------------------------------------------------------------

  /** The domain of `e` holds its blueprint's fields, is active, has no draft and does not need mapping. */
  predicate Landed(x: Redis.Db, e: SeedEntry) {
    var h := x.HGetAll(BlueprintKey(e.domain));
    ExtractionOf(e.blueprint).JObj?
    && CommitFields <= h.Keys
    && h["url"] == TargetUrl(e.blueprint)
    && h["name_selector"] == NameSelector(e.blueprint, ExtractionOf(e.blueprint).fields)
    && h["result_selector"] == ResultSelector(e.blueprint, ExtractionOf(e.blueprint).fields)
    && x.Get(ActiveKey(e.domain)) == Some("1")
    && !x.Exists(PendingKey(e.domain))
    && e.domain !in x.Members(NeedMappingKey)
  }

  lemma LandsOnCommit(x: Redis.Db, e: SeedEntry, now: string, dumps: Json -> string)
    requires ExtractionOf(e.blueprint).JObj?
    ensures Landed(Commit(x, e.domain, e.blueprint, now, dumps, true).1, e)
  {
    CommitWritesSixFields(x, e.domain, e.blueprint, now, dumps, true);
    CommitEntryCompletes(x, e, now, dumps);
    CommitClearsNeedsMapping(x, e.domain, e.blueprint, now, dumps);
  }

  lemma LandedKept(x: Redis.Db, e: SeedEntry, f: SeedEntry, now: string, dumps: Json -> string)
    requires Landed(x, e)
    requires e.domain != f.domain && ':' !in e.domain && ':' !in f.domain && ExtractionOf(f.blueprint).JObj?
    ensures Landed(Commit(x, f.domain, f.blueprint, now, dumps, true).1, e)
  {
    var d, g := e.domain, f.domain;
    KeysDiffer(g, d);
    KeysDiffer(d, g);
    DomainKeysDiffer(d, g);
    DomainKeysDiffer(g, d);
    BlueprintNotPending(g, d);
    BlueprintNotPending(d, g);
    CommitEntry(x, f, now, dumps);
    var m := EntryMapping(f, now, dumps);
    CommitAtFrame(x, BlueprintKey(g), ActiveKey(g), PendingKey(g), NeedMappingKey, g, m, BlueprintKey(d));
    CommitAtFrame(x, BlueprintKey(g), ActiveKey(g), PendingKey(g), NeedMappingKey, g, m, ActiveKey(d));
    CommitAtFrame(x, BlueprintKey(g), ActiveKey(g), PendingKey(g), NeedMappingKey, g, m, PendingKey(d));
    CommitAtMembers(x, BlueprintKey(g), ActiveKey(g), PendingKey(g), NeedMappingKey, g, m);
  }

  /** A completed commit leaves every key other than its own four as it was. */
  lemma CommitAtFrame(x: Redis.Db, bk: string, ak: string, pk: string, nk: string, member: string,
                      m: map<string, string>, k: string)
    requires k != bk && k != ak && k != pk && k != nk
    ensures var y := CommitAt(x, bk, ak, pk, nk, member, m);
            y.HGetAll(k) == x.HGetAll(k) && y.Get(k) == x.Get(k) && (y.Exists(k) <==> x.Exists(k))
  {
  }

  /** A completed commit removes its member from the need-mapping set and nothing else. */
  lemma CommitAtMembers(x: Redis.Db, bk: string, ak: string, pk: string, nk: string, member: string,
                        m: map<string, string>)
    requires nk != ak && nk != pk
    ensures CommitAt(x, bk, ak, pk, nk, member, m).Members(nk) == x.Members(nk) - {member}
  {
  }

  /** No entry after the first has a domain no entry has. */
  lemma TailAvoids(es: seq<SeedEntry>, d: string)
    requires es != [] && forall i :: 0 <= i < |es| ==> es[i].domain != d
    ensures forall i :: 0 <= i < |es[1..]| ==> es[1..][i].domain != d
  {
    assert forall i :: 0 <= i < |es[1..]| ==> es[1..][i] == es[i + 1];
  }

  lemma {:induction false} LandedKeptByRun(x: Redis.Db, e: SeedEntry, es: seq<SeedEntry>, now: string,
                                           dumps: Json -> string, writable: string -> bool)
    requires forall d :: writable(d)
    requires Landed(x, e) && WellFormed(es) && ':' !in e.domain
    requires forall i :: 0 <= i < |es| ==> es[i].domain != e.domain
    ensures Landed(SeedAll(x, es, now, dumps, writable).1, e)
    decreases |es|
  {
    if es != [] {
      var y := Commit(x, es[0].domain, es[0].blueprint, now, dumps, true).1;
      CommitEntryCompletes(x, es[0], now, dumps);
      SeedAllFirst(x, es, now, dumps, writable);
      LandedKept(x, e, es[0], now, dumps);
      WellFormedTail(es);
      TailAvoids(es, e.domain);
      LandedKeptByRun(y, e, es[1..], now, dumps, writable);
    }
  }

  /**
   * After a run with every file writable, the domain of entry `k` holds
   * its blueprint's URL and selectors, is active, has no draft and no
   * longer needs mapping.
   */
  lemma {:induction false} SeedAllLands(db: Redis.Db, es: seq<SeedEntry>, k: nat, now: string, dumps: Json -> string,
                                        writable: string -> bool)
    requires forall d :: writable(d)
    requires WellFormed(es) && k < |es|
    ensures Landed(SeedAll(db, es, now, dumps, writable).1, es[k])
    decreases k
  {
    var e, rest := es[0], es[1..];
    WellFormedTail(es);
    CommitEntryCompletes(db, e, now, dumps);
    var c := Commit(db, e.domain, e.blueprint, now, dumps, true).1;
    assert SeedAll(db, es, now, dumps, writable).1 == SeedAll(c, rest, now, dumps, writable).1;
    if k == 0 {
      HeadNotInTail(es);
      LandsOnCommit(db, e, now, dumps);
      LandedKeptByRun(c, e, rest, now, dumps, writable);
    } else {
      assert es[k] == rest[k - 1];
      SeedAllLands(c, rest, k - 1, now, dumps, writable);
    }
  }

  // ---------------------------------------------------------------------
  // The seeding script
  // ---------------------------------------------------------------------

  /** Commits each entry in order, stopping at the first commit that raises; returns how many were seeded. */
  method Seed(r: Redis.Store, es: seq<SeedEntry>, now: string, dumps: Json -> string, writable: string -> bool)
    returns (seeded: nat)
    modifies r
    ensures seeded == SeedAll(old(r.Snapshot()), es, now, dumps, writable).0
    ensures r.Snapshot() == SeedAll(old(r.Snapshot()), es, now, dumps, writable).1
  {
    seeded := 0;
    var i := 0;
    assert es[0..] == es;
    while i < |es|
      invariant 0 <= i <= |es| && seeded == i
      invariant SeedAll(old(r.Snapshot()), es, now, dumps, writable).0
                == seeded + SeedAll(r.Snapshot(), es[i..], now, dumps, writable).0
      invariant SeedAll(old(r.Snapshot()), es, now, dumps, writable).1 == SeedAll(r.Snapshot(), es[i..], now, dumps, writable).1
    {
      var e := es[i];
      ghost var before := r.Snapshot();
      var status := CommitBlueprint(r, e.domain, e.blueprint, now, dumps, writable(e.domain));
      if status != Committed {
        SeedAllHalts(before, es, i, now, dumps, writable);
        return;
      }
      SeedAllAdvance(before, r.Snapshot(), es, i, now, dumps, writable);
      seeded := seeded + 1;
      i := i + 1;
    }
    assert es[i..] == [];
  }

  /** `main`: seed the six magazine domains. */
  method SeedMagazine(r: Redis.Store, now: string, dumps: Json -> string, writable: string -> bool)
    returns (seeded: nat)
    modifies r
    ensures seeded == SeedAll(old(r.Snapshot()), Magazine, now, dumps, writable).0
    ensures r.Snapshot() == SeedAll(old(r.Snapshot()), Magazine, now, dumps, writable).1
  {
    seeded := Seed(r, Magazine, now, dumps, writable);
  }
}
