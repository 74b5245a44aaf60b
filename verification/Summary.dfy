/** The diagnostic summary: pinning records of the buffered reports, grouped by site. */
module Summary {
  import opened Hash
  import opened Probe
  import opened GranuleDiag
  import opened ReportBuffer

  datatype SiteEntry = SiteEntry(site: AllocSite, pinningCount: nat, totalAllocs: nat, totalBytes: nat)

  datatype DiagnosticSummary = DiagnosticSummary(
    sites: seq<SiteEntry>, siteCount: nat, totalPinningAllocs: nat, reportsAnalyzed: nat)

  /** UINT64_MAX marks a site that no granule has been seen to contain. */
  const SENTINEL := GranuleId(0xffff_ffff_ffff_ffff)

  /** The sentinel is the largest id. */
  lemma SentinelIsLargest(id: GranuleId)
    ensures id.bits <= SENTINEL.bits
  {}

  const NO_ENTRY := SiteEntry(AllocSite(0, 0, 0), 0, 0, 0)

  /** Sites are compared by file address and line; the column does not count. */
  datatype Key = Key(file: nat, line: nat)

  function KeyOf(site: AllocSite): Key {
    Key(site.file, site.line)
  }

  /** A pinning record with the granule of its report. */
  datatype Pin = Pin(granule: GranuleId, alloc: PinningAlloc)

  function PinKey(p: Pin): Key {
    KeyOf(p.alloc.site)
  }

  /** All pinning records of the reports, in order. */
  function PinsOf(r: PinningReport): (p: seq<Pin>)
    ensures |p| == |r.pinningAllocs|
  {
    seq(|r.pinningAllocs|, j requires 0 <= j < |r.pinningAllocs| => Pin(r.granuleId, r.pinningAllocs[j]))
  }

  function AllPins(reports: Reports): seq<Pin> {
    if reports == [] then []
    else AllPins(reports[..|reports| - 1]) + PinsOf(reports[|reports| - 1])
  }

  // The aggregation, one record at a time.

  /** Entries so far, in unbounded numbers, and the granule last seen at each. */
  datatype Acc = Acc(entries: seq<SiteEntry>, last: seq<GranuleId>)

  function IndexOf(entries: seq<SiteEntry>, key: Key, from: nat): (i: nat)
    requires from <= |entries|
    ensures from <= i <= |entries|
    ensures i < |entries| ==> KeyOf(entries[i].site) == key
    ensures forall k :: from <= k < i ==> KeyOf(entries[k].site) != key
    decreases |entries| - from
  {
    if from == |entries| || KeyOf(entries[from].site) == key then from
    else IndexOf(entries, key, from + 1)
  }

  /** find_or_create_site: the entries with one for the site, and its index. */
  function WithSite(entries: seq<SiteEntry>, site: AllocSite): (r: (seq<SiteEntry>, nat))
    ensures r.1 < |r.0| && KeyOf(r.0[r.1].site) == KeyOf(site)
  {
    var i := IndexOf(entries, KeyOf(site), 0);
    (if i < |entries| then entries else entries + [SiteEntry(site, 0, 0, 0)], i)
  }

  /** One more record of `size` bytes, from a granule not just seen or just seen. */
  function Charge(e: SiteEntry, size: nat, newGranule: bool): SiteEntry {
    e.(totalAllocs := e.totalAllocs + 1,
       totalBytes := e.totalBytes + size,
       pinningCount := e.pinningCount + if newGranule then 1 else 0)
  }

  function Absorb(a: Acc, p: Pin): (r: Acc)
    requires |a.entries| == |a.last|
    ensures |r.entries| == |r.last|
  {
    var (entries, i) := WithSite(a.entries, p.alloc.site);
    var last := if i < |a.last| then a.last else a.last + [SENTINEL];
    Acc(entries[i := Charge(entries[i], p.alloc.size, last[i] != p.granule)], last[i := p.granule])
  }

  function AbsorbAll(pins: seq<Pin>): (a: Acc)
    ensures |a.entries| == |a.last|
  {
    if pins == [] then Acc([], [])
    else Absorb(AbsorbAll(pins[..|pins| - 1]), pins[|pins| - 1])
  }

  /** The fields of an entry as uint32_t and size_t hold them. */
  function Stored(e: SiteEntry): SiteEntry {
    SiteEntry(e.site, Low32(e.pinningCount), Low32(e.totalAllocs), Low64(e.totalBytes))
  }

  function AllStored(entries: seq<SiteEntry>): (r: seq<SiteEntry>)
    ensures |r| == |entries|
  {
    seq(|entries|, i requires 0 <= i < |entries| => Stored(entries[i]))
  }

  function Summarize(reports: Reports): DiagnosticSummary {
    var entries := AbsorbAll(AllPins(reports)).entries;
    DiagnosticSummary(AllStored(entries), |entries|, Low32(|AllPins(reports)|), Low32(|reports|))
  }

  // Independent specifications.

  function CountAt(pins: seq<Pin>, key: Key): nat {
    if pins == [] then 0
    else CountAt(pins[..|pins| - 1], key) + if PinKey(pins[|pins| - 1]) == key then 1 else 0
  }

  function BytesAt(pins: seq<Pin>, key: Key): nat {
    if pins == [] then 0
    else
      BytesAt(pins[..|pins| - 1], key)
      + if PinKey(pins[|pins| - 1]) == key then pins[|pins| - 1].alloc.size else 0
  }

  /** The granules of the records at a site, in order. */
  function GranulesAt(pins: seq<Pin>, key: Key): seq<GranuleId> {
    if pins == [] then []
    else
      GranulesAt(pins[..|pins| - 1], key)
      + if PinKey(pins[|pins| - 1]) == key then [pins[|pins| - 1].granule] else []
  }

  predicate Contains(r: PinningReport, key: Key) {
    exists j :: 0 <= j < |r.pinningAllocs| && KeyOf(r.pinningAllocs[j].site) == key
  }

  /** The granules of the reports that contain a site, in order. */
  function ReportGranules(reports: Reports, key: Key): seq<GranuleId> {
    if reports == [] then []
    else
      var r := reports[|reports| - 1];
      ReportGranules(reports[..|reports| - 1], key) + if Contains(r, key) then [r.granuleId] else []
  }

  function LastOf(prev: GranuleId, gs: seq<GranuleId>): GranuleId {
    if gs == [] then prev else gs[|gs| - 1]
  }

  /** How often a scan that starts at `prev` meets a granule other than the one before. */
  function Changes(prev: GranuleId, gs: seq<GranuleId>): nat {
    if gs == [] then 0
    else
      var init := gs[..|gs| - 1];
      Changes(prev, init) + if LastOf(prev, init) != gs[|gs| - 1] then 1 else 0
  }

  predicate StartsBlock(gs: seq<GranuleId>, i: nat)
    requires i < |gs|
  {
    i == 0 || gs[i] != gs[i - 1]
  }

  /** Where the maximal blocks of equal granules begin. */
  ghost function BlockStarts(gs: seq<GranuleId>): set<nat> {
    set i: nat | i < |gs| && StartsBlock(gs, i)
  }

  lemma BlockStartsLast(gs: seq<GranuleId>)
    requires gs != []
    ensures |BlockStarts(gs)|
         == |BlockStarts(gs[..|gs| - 1])| + if StartsBlock(gs, |gs| - 1) then 1 else 0
  {
    var last := |gs| - 1;
    forall i: nat | i < last
      ensures StartsBlock(gs, i) == StartsBlock(gs[..last], i)
    {}
    if StartsBlock(gs, last) {
      assert BlockStarts(gs) == BlockStarts(gs[..last]) + {last};
    } else {
      assert BlockStarts(gs) == BlockStarts(gs[..last]);
    }
  }

  // What the aggregation computes.

  ghost predicate UniqueKeys(entries: seq<SiteEntry>) {
    forall i, j :: 0 <= i < j < |entries| ==> KeyOf(entries[i].site) != KeyOf(entries[j].site)
  }

  predicate HasKey(entries: seq<SiteEntry>, key: Key) {
    exists i :: 0 <= i < |entries| && KeyOf(entries[i].site) == key
  }

  ghost predicate Exact(e: SiteEntry, last: GranuleId, pins: seq<Pin>) {
    var key := KeyOf(e.site);
    && e.totalAllocs == CountAt(pins, key)
    && e.totalBytes == BytesAt(pins, key)
    && e.pinningCount == Changes(SENTINEL, GranulesAt(pins, key))
    && last == LastOf(SENTINEL, GranulesAt(pins, key))
  }

  ghost predicate AllExact(a: Acc, pins: seq<Pin>)
    requires |a.entries| == |a.last|
  {
    forall i :: 0 <= i < |a.entries| ==> Exact(a.entries[i], a.last[i], pins)
  }

  /** A site without records counts nothing. */
  lemma {:induction false} NoRecords(pins: seq<Pin>, key: Key)
    requires forall p :: p in pins ==> PinKey(p) != key
    ensures CountAt(pins, key) == 0 && BytesAt(pins, key) == 0 && GranulesAt(pins, key) == []
  {
    if pins != [] {
      assert pins[|pins| - 1] in pins;
      NoRecords(pins[..|pins| - 1], key);
    }
  }

  /** The entry charged with a record stays exact. */
  lemma ChargeExact(e: SiteEntry, last: GranuleId, pins: seq<Pin>, p: Pin)
    requires Exact(e, last, pins) && PinKey(p) == KeyOf(e.site)
    ensures Exact(Charge(e, p.alloc.size, last != p.granule), p.granule, pins + [p])
  {
    var key := KeyOf(e.site);
    assert (pins + [p])[..|pins|] == pins;
    var gs := GranulesAt(pins, key);
    assert (gs + [p.granule])[..|gs|] == gs;
  }

  /** A record at another site changes nothing here. */
  lemma OtherExact(e: SiteEntry, last: GranuleId, pins: seq<Pin>, p: Pin)
    requires Exact(e, last, pins) && PinKey(p) != KeyOf(e.site)
    ensures Exact(e, last, pins + [p])
  {
    assert (pins + [p])[..|pins|] == pins;
    assert GranulesAt(pins + [p], KeyOf(e.site)) == GranulesAt(pins, KeyOf(e.site));
  }

  /** A fresh entry is exact for a site that has no record yet. */
  lemma FreshExact(site: AllocSite, pins: seq<Pin>)
    requires forall p :: p in pins ==> PinKey(p) != KeyOf(site)
    ensures Exact(SiteEntry(site, 0, 0, 0), SENTINEL, pins)
  {
    NoRecords(pins, KeyOf(site));
  }

  predicate OccursAt(pins: seq<Pin>, j: nat, key: Key) {
    j < |pins| && PinKey(pins[j]) == key
  }

  ghost predicate Occurs(pins: seq<Pin>, key: Key) {
    exists j: nat :: OccursAt(pins, j, key)
  }

  ghost predicate Covers(entries: seq<SiteEntry>, pins: seq<Pin>) {
    forall key :: HasKey(entries, key) <==> Occurs(pins, key)
  }

  lemma NotYetSeen(entries: seq<SiteEntry>, pins: seq<Pin>, key: Key)
    requires Covers(entries, pins) && IndexOf(entries, key, 0) == |entries|
    ensures forall p :: p in pins ==> PinKey(p) != key
  {
    forall p | p in pins
      ensures PinKey(p) != key
    {
      var j: nat :| j < |pins| && pins[j] == p;
      assert OccursAt(pins, j, PinKey(p));
      assert Occurs(pins, PinKey(p));
      assert HasKey(entries, PinKey(p));
    }
  }

  lemma AbsorbExact(a: Acc, pins: seq<Pin>, p: Pin)
    requires |a.entries| == |a.last| && AllExact(a, pins)
    requires UniqueKeys(a.entries) && Covers(a.entries, pins)
    ensures AllExact(Absorb(a, p), pins + [p]) && UniqueKeys(Absorb(a, p).entries)
  {
    var (entries, i) := WithSite(a.entries, p.alloc.site);
    var last := if i < |a.last| then a.last else a.last + [SENTINEL];
    if i == |a.entries| {
      NotYetSeen(a.entries, pins, PinKey(p));
      FreshExact(p.alloc.site, pins);
    }
    ChargeExact(entries[i], last[i], pins, p);
    forall k | 0 <= k < |entries| && k != i
      ensures Exact(entries[k], last[k], pins + [p])
    {
      OtherExact(entries[k], last[k], pins, p);
    }
  }

  lemma AbsorbCovers(a: Acc, pins: seq<Pin>, p: Pin)
    requires |a.entries| == |a.last| && Covers(a.entries, pins)
    ensures Covers(Absorb(a, p).entries, pins + [p])
  {
    var entries' := Absorb(a, p).entries;
    var (entries, i) := WithSite(a.entries, p.alloc.site);
    assert KeyOf(entries'[i].site) == PinKey(p);
    forall key
      ensures HasKey(entries', key) <==> HasKey(a.entries, key) || key == PinKey(p)
    {
      if k :| 0 <= k < |a.entries| && KeyOf(a.entries[k].site) == key {
        assert KeyOf(entries'[k].site) == key;
      }
      if k :| 0 <= k < |entries'| && KeyOf(entries'[k].site) == key {
        assert k < |a.entries| ==> KeyOf(a.entries[k].site) == key;
      }
    }
    forall key
      ensures Occurs(pins + [p], key) <==> Occurs(pins, key) || key == PinKey(p)
    {
      assert (pins + [p])[|pins|] == p;
      if j: nat :| OccursAt(pins, j, key) {
        assert OccursAt(pins + [p], j, key);
      }
      if j: nat :| OccursAt(pins + [p], j, key) {
        assert j < |pins| ==> OccursAt(pins, j, key);
      }
      assert OccursAt(pins + [p], |pins|, PinKey(p));
    }
  }

  /** Entries are unique by file and line, cover exactly the sites that occur, and each is
      exact over all its records. */
  lemma {:induction false} AbsorbAllExact(pins: seq<Pin>)
    ensures var a := AbsorbAll(pins);
      UniqueKeys(a.entries) && Covers(a.entries, pins) && AllExact(a, pins)
  {
    if pins != [] {
      var init, p := pins[..|pins| - 1], pins[|pins| - 1];
      assert init + [p] == pins;
      AbsorbAllExact(init);
      AbsorbExact(AbsorbAll(init), init, p);
      AbsorbCovers(AbsorbAll(init), init, p);
    }
  }

  function SumAllocs(entries: seq<SiteEntry>): nat {
    if entries == [] then 0
    else SumAllocs(entries[..|entries| - 1]) + entries[|entries| - 1].totalAllocs
  }

  lemma {:induction false} SumUpdate(entries: seq<SiteEntry>, i: nat, e: SiteEntry)
    requires i < |entries|
    ensures SumAllocs(entries[i := e]) + entries[i].totalAllocs == SumAllocs(entries) + e.totalAllocs
  {
    var last := |entries| - 1;
    if i == last {
      assert entries[i := e][..last] == entries[..last];
    } else {
      assert entries[i := e][..last] == entries[..last][i := e];
      SumUpdate(entries[..last], i, e);
    }
  }

  lemma WithSiteSum(entries: seq<SiteEntry>, site: AllocSite)
    ensures SumAllocs(WithSite(entries, site).0) == SumAllocs(entries)
  {
    var entries' := WithSite(entries, site).0;
    if |entries'| > |entries| {
      assert entries'[..|entries|] == entries;
    }
  }

  /** The entry counts sum to the number of records. */
  lemma {:induction false} SumsToTotal(pins: seq<Pin>)
    ensures SumAllocs(AbsorbAll(pins).entries) == |pins|
  {
    if pins != [] {
      var p := pins[|pins| - 1];
      var a := AbsorbAll(pins[..|pins| - 1]);
      SumsToTotal(pins[..|pins| - 1]);
      WithSiteSum(a.entries, p.alloc.site);
      var (entries, i) := WithSite(a.entries, p.alloc.site);
      SumUpdate(entries, i, AbsorbAll(pins).entries[i]);
    }
  }

  // Pin counts.

  lemma {:induction false} ChangesOfRepeat(prev: GranuleId, gs: seq<GranuleId>, g: GranuleId, m: nat)
    ensures var gs' := gs + seq(m, _ => g);
      && Changes(prev, gs') == Changes(prev, gs) + (if m > 0 && LastOf(prev, gs) != g then 1 else 0)
      && LastOf(prev, gs') == if m > 0 then g else LastOf(prev, gs)
  {
    var gs' := gs + seq(m, _ => g);
    if m == 0 {
      assert gs' == gs;
    } else {
      ChangesOfRepeat(prev, gs, g, m - 1);
      assert gs'[..|gs'| - 1] == gs + seq(m - 1, _ => g);
    }
  }

  /** The records of one report at a site all carry the granule of the report. */
  lemma {:induction false} GranulesOfReport(pins: seq<Pin>, r: PinningReport, j: nat, key: Key)
    returns (m: nat)
    requires j <= |r.pinningAllocs|
    ensures GranulesAt(pins + PinsOf(r)[..j], key) == GranulesAt(pins, key) + seq(m, _ => r.granuleId)
    ensures m > 0 <==> exists k :: 0 <= k < j && KeyOf(r.pinningAllocs[k].site) == key
  {
    if j == 0 {
      m := 0;
      assert pins + PinsOf(r)[..0] == pins;
    } else {
      m := GranulesOfReport(pins, r, j - 1, key);
      var longer := pins + PinsOf(r)[..j];
      assert longer[..|longer| - 1] == pins + PinsOf(r)[..j - 1];
      assert longer[|longer| - 1] == Pin(r.granuleId, r.pinningAllocs[j - 1]);
      if KeyOf(r.pinningAllocs[j - 1].site) == key {
        assert seq(m, _ => r.granuleId) + [r.granuleId] == seq(m + 1, _ => r.granuleId);
        m := m + 1;
      }
    }
  }

  lemma ChangesOfOne(prev: GranuleId, gs: seq<GranuleId>, g: GranuleId)
    ensures Changes(prev, gs + [g]) == Changes(prev, gs) + if LastOf(prev, gs) != g then 1 else 0
    ensures LastOf(prev, gs + [g]) == g
  {
    assert (gs + [g])[..|gs|] == gs;
  }

  /** Several records of a site in one report count like one. */
  lemma {:induction false} ChangesByReport(reports: Reports, key: Key)
    ensures var byRecord, byReport := GranulesAt(AllPins(reports), key), ReportGranules(reports, key);
      && Changes(SENTINEL, byRecord) == Changes(SENTINEL, byReport)
      && LastOf(SENTINEL, byRecord) == LastOf(SENTINEL, byReport)
  {
    if reports != [] {
      var init, r := reports[..|reports| - 1], reports[|reports| - 1];
      ChangesByReport(init, key);
      var m := GranulesOfReport(AllPins(init), r, |r.pinningAllocs|, key);
      assert PinsOf(r)[..|r.pinningAllocs|] == PinsOf(r);
      assert m > 0 <==> Contains(r, key);
      ChangesOfRepeat(SENTINEL, GranulesAt(AllPins(init), key), r.granuleId, m);
      var gs := ReportGranules(init, key);
      if Contains(r, key) {
        ChangesOfOne(SENTINEL, gs, r.granuleId);
      } else {
        assert gs + [] == gs;
      }
    }
  }

  lemma {:induction false} ChangesAreBlocks(prev: GranuleId, gs: seq<GranuleId>)
    ensures Changes(prev, gs) + (if gs != [] && gs[0] == prev then 1 else 0) == |BlockStarts(gs)|
  {
    if gs == [] {
      assert BlockStarts(gs) == {};
    } else {
      ChangesAreBlocks(prev, gs[..|gs| - 1]);
      BlockStartsLast(gs);
    }
  }

  ghost function Distinct(gs: seq<GranuleId>): set<GranuleId> {
    set g | g in gs
  }

  /** Blocks lie between the distinct granules and the reports, and equal both when the
      granules are distinct. */
  lemma {:induction false} BlockBounds(gs: seq<GranuleId>)
    ensures |Distinct(gs)| <= |BlockStarts(gs)| <= |gs|
    ensures (forall i, j :: 0 <= i < j < |gs| ==> gs[i] != gs[j]) ==>
              |Distinct(gs)| == |BlockStarts(gs)| == |gs|
  {
    if gs == [] {
      assert BlockStarts(gs) == {} && Distinct(gs) == {};
    } else {
      var last := |gs| - 1;
      var init := gs[..last];
      BlockBounds(init);
      BlockStartsLast(gs);
      assert Distinct(gs) == Distinct(init) + {gs[last]};
      if !StartsBlock(gs, last) {
        assert init[last - 1] in Distinct(init);
        assert Distinct(gs) == Distinct(init);
      }
    }
  }

  lemma {:induction false} ReportGranulesSize(reports: Reports, key: Key)
    ensures |ReportGranules(reports, key)| <= |reports|
  {
    if reports != [] {
      ReportGranulesSize(reports[..|reports| - 1], key);
    }
  }

  /** How many blocks the scan by change of granule overlooks. */
  function Overlooked(gs: seq<GranuleId>): nat {
    if gs != [] && gs[0] == SENTINEL then 1 else 0
  }

  lemma PinCountChanges(reports: Reports, i: nat)
    requires i < |Summarize(reports).sites|
    ensures var e := Summarize(reports).sites[i];
      e.pinningCount == Low32(Changes(SENTINEL, ReportGranules(reports, KeyOf(e.site))))
  {
    var a := AbsorbAll(AllPins(reports));
    AbsorbAllExact(AllPins(reports));
    assert Exact(a.entries[i], a.last[i], AllPins(reports));
    ChangesByReport(reports, KeyOf(a.entries[i].site));
  }

  lemma ChangesOverlook(gs: seq<GranuleId>)
    ensures Overlooked(gs) <= |BlockStarts(gs)| <= |gs|
    ensures Changes(SENTINEL, gs) == |BlockStarts(gs)| - Overlooked(gs)
  {
    ChangesAreBlocks(SENTINEL, gs);
    BlockBounds(gs);
  }

  lemma PinCountStored(reports: Reports, i: nat)
    requires i < |Summarize(reports).sites|
    ensures var e := Summarize(reports).sites[i];
      var gs := ReportGranules(reports, KeyOf(e.site));
      && Overlooked(gs) <= |BlockStarts(gs)| <= |gs| <= |reports|
      && e.pinningCount == Low32(|BlockStarts(gs)| - Overlooked(gs))
  {
    var key := KeyOf(Summarize(reports).sites[i].site);
    PinCountChanges(reports, i);
    ChangesOverlook(ReportGranules(reports, key));
    ReportGranulesSize(reports, key);
  }

  /** The pinning count of a site is the number of maximal blocks of equal granule id among
      the reports that contain it, if and only if the first of these reports is not for
      granule UINT64_MAX; for that granule it is one short. A ring has at most 2^31 reports. */
  lemma PinCountIsBlocks(reports: Reports, i: nat)
    requires i < |Summarize(reports).sites| && |reports| < 0x1_0000_0000
    ensures var e := Summarize(reports).sites[i];
      var gs := ReportGranules(reports, KeyOf(e.site));
      && (e.pinningCount == |BlockStarts(gs)| <==> gs == [] || gs[0] != SENTINEL)
      && (gs != [] && gs[0] == SENTINEL ==> e.pinningCount == |BlockStarts(gs)| - 1)
  {
    PinCountStored(reports, i);
  }

  /** The pinning count of a site lies between the distinct granules and the reports that
      contain it, and equals both when no granule repeats, unless the first is UINT64_MAX. */
  lemma PinCountBounds(reports: Reports, i: nat)
    requires i < |Summarize(reports).sites| && |reports| < 0x1_0000_0000
    requires var gs := ReportGranules(reports, KeyOf(Summarize(reports).sites[i].site));
      gs == [] || gs[0] != SENTINEL
    ensures var e := Summarize(reports).sites[i];
      var gs := ReportGranules(reports, KeyOf(e.site));
      && |Distinct(gs)| <= e.pinningCount <= |gs|
      && ((forall i, j :: 0 <= i < j < |gs| ==> gs[i] != gs[j]) ==>
            |Distinct(gs)| == e.pinningCount == |gs|)
  {
    PinCountIsBlocks(reports, i);
    BlockBounds(ReportGranules(reports, KeyOf(Summarize(reports).sites[i].site)));
  }

  /** One report for granule UINT64_MAX with one record: the site is listed with pinning count 0. */
  lemma SentinelOverlooked(alloc: PinningAlloc, time: Timespec)
    ensures var s := Summarize([PinningReport(SENTINEL, time, time, [alloc], 1, 1, 0)]);
      |s.sites| == 1 && s.sites[0].totalAllocs == 1 && s.sites[0].pinningCount == 0
  {
    var r := PinningReport(SENTINEL, time, time, [alloc], 1, 1, 0);
    var p := Pin(SENTINEL, alloc);
    assert [r][..0] == [] && PinsOf(r) == [p];
    assert AllPins([r]) == [p] && [p][..0] == [];
    assert AbsorbAll([p]) == Absorb(AbsorbAll([]), p);
  }

  lemma {:induction false} SumStored(entries: seq<SiteEntry>)
    requires SumAllocs(entries) < 0x1_0000_0000
    ensures SumAllocs(AllStored(entries)) == SumAllocs(entries)
  {
    if entries != [] {
      SumStored(entries[..|entries| - 1]);
      assert AllStored(entries)[..|entries| - 1] == AllStored(entries[..|entries| - 1]);
    }
  }

  lemma StoredKeys(entries: seq<SiteEntry>, pins: seq<Pin>)
    requires UniqueKeys(entries) && Covers(entries, pins)
    ensures UniqueKeys(AllStored(entries)) && Covers(AllStored(entries), pins)
  {
    var stored := AllStored(entries);
    assert forall i :: 0 <= i < |entries| ==> KeyOf(stored[i].site) == KeyOf(entries[i].site);
    forall key
      ensures HasKey(stored, key) <==> HasKey(entries, key)
    {
      if i :| 0 <= i < |entries| && KeyOf(entries[i].site) == key {
        assert KeyOf(stored[i].site) == key;
      }
    }
  }

  predicate SameSite(a: AllocSite, b: AllocSite) {
    a.file == b.file && a.line == b.line
  }

  predicate NamedIn(reports: Reports, i: nat, j: nat, site: AllocSite) {
    i < |reports| && j < |reports[i].pinningAllocs| && SameSite(reports[i].pinningAllocs[j].site, site)
  }

  /** Some record of some report names the file and line of the site. */
  ghost predicate Named(reports: Reports, site: AllocSite) {
    exists i: nat, j: nat :: NamedIn(reports, i, j, site)
  }

  predicate Listed(entries: seq<SiteEntry>, i: nat, site: AllocSite) {
    i < |entries| && SameSite(entries[i].site, site)
  }

  /** A site occurs among all records exactly when a record of some report names it. */
  lemma {:induction false} OccursInReport(reports: Reports, site: AllocSite)
    ensures Occurs(AllPins(reports), KeyOf(site)) <==> Named(reports, site)
  {
    if reports != [] {
      var n := |reports| - 1;
      var init, r := reports[..n], reports[n];
      var before := AllPins(init);
      OccursInReport(init, site);
      if j: nat :| OccursAt(AllPins(reports), j, KeyOf(site)) {
        if j < |before| {
          assert OccursAt(before, j, KeyOf(site));
          assert Named(init, site);
          var i: nat, k: nat :| NamedIn(init, i, k, site);
          assert NamedIn(reports, i, k, site);
        } else {
          assert NamedIn(reports, n, j - |before|, site);
        }
      }
      if i: nat, j: nat :| NamedIn(reports, i, j, site) {
        if i < n {
          assert NamedIn(init, i, j, site);
          assert Occurs(before, KeyOf(site));
          var k: nat :| OccursAt(before, k, KeyOf(site));
          assert OccursAt(AllPins(reports), k, KeyOf(site));
        } else {
          assert OccursAt(AllPins(reports), |before| + j, KeyOf(site));
        }
      }
    }
  }

  /** The summary has an entry for a file and line exactly when a record of some report names
      them, and never two. */
  lemma SummaryCovers(reports: Reports, site: AllocSite)
    ensures var s := Summarize(reports);
      && s.siteCount == |s.sites|
      && (forall i, j :: 0 <= i < j < |s.sites| ==> !SameSite(s.sites[i].site, s.sites[j].site))
      && ((exists i: nat :: Listed(s.sites, i, site)) <==> Named(reports, site))
  {
    var pins, sites := AllPins(reports), Summarize(reports).sites;
    AbsorbAllExact(pins);
    StoredKeys(AbsorbAll(pins).entries, pins);
    OccursInReport(reports, site);
    EntryForKey(sites, site);
    assert sites == AllStored(AbsorbAll(pins).entries);
    assert Covers(sites, pins);
  }

  lemma EntryForKey(entries: seq<SiteEntry>, site: AllocSite)
    ensures HasKey(entries, KeyOf(site)) <==> exists i: nat :: Listed(entries, i, site)
    ensures UniqueKeys(entries) ==>
              forall i, j :: 0 <= i < j < |entries| ==> !SameSite(entries[i].site, entries[j].site)
  {
    if i: nat :| Listed(entries, i, site) {
      assert KeyOf(entries[i].site) == KeyOf(site);
    }
    if i :| 0 <= i < |entries| && KeyOf(entries[i].site) == KeyOf(site) {
      assert Listed(entries, i, site);
    }
  }

  /** Every buffered report is analyzed; their number is exact while it fits 32 bits. */
  lemma EveryReportAnalyzed(reports: Reports)
    ensures Summarize(reports).reportsAnalyzed == Low32(|reports|)
    ensures |reports| < 0x1_0000_0000 ==> Summarize(reports).reportsAnalyzed == |reports|
  {
    StoredExactly(|reports|);
  }

  /** Each entry has the count and the bytes of all records of its site, as its fields hold them. */
  lemma SummaryExact(reports: Reports, i: nat)
    requires i < |Summarize(reports).sites|
    ensures var e, pins := Summarize(reports).sites[i], AllPins(reports);
      && e.totalAllocs == Low32(CountAt(pins, KeyOf(e.site)))
      && e.totalBytes == Low64(BytesAt(pins, KeyOf(e.site)))
  {
    var pins := AllPins(reports);
    AbsorbAllExact(pins);
    assert Exact(AbsorbAll(pins).entries[i], AbsorbAll(pins).last[i], pins);
  }

  lemma {:induction false} SumStoredWraps(entries: seq<SiteEntry>)
    ensures Low32(SumAllocs(AllStored(entries))) == Low32(SumAllocs(entries))
  {
    if entries != [] {
      var n := |entries| - 1;
      var sum, stored, last := SumAllocs(entries[..n]), SumAllocs(AllStored(entries)[..n]), entries[n].totalAllocs;
      SumStoredWraps(entries[..n]);
      assert AllStored(entries)[..n] == AllStored(entries[..n]);
      Low32Plus(last, stored);
      Low32Plus(stored, last);
      Low32Plus(sum, last);
    }
  }

  lemma TotalOf(entries: seq<SiteEntry>, n: nat)
    requires SumAllocs(entries) == n
    ensures Low32(SumAllocs(AllStored(entries))) == Low32(n)
    ensures n < 0x1_0000_0000 ==> SumAllocs(AllStored(entries)) == n
  {
    SumStoredWraps(entries);
    if n < 0x1_0000_0000 {
      SumStored(entries);
    }
  }

  /** The entry counts add up to the total, modulo 2^32, and exactly below 2^32 records. */
  lemma SummaryTotal(reports: Reports)
    ensures var s := Summarize(reports);
      && Low32(SumAllocs(s.sites)) == s.totalPinningAllocs
      && (|AllPins(reports)| < 0x1_0000_0000 ==> SumAllocs(s.sites) == |AllPins(reports)|)
  {
    SumsToTotal(AllPins(reports));
    TotalOf(AbsorbAll(AllPins(reports)).entries, |AllPins(reports)|);
  }

  // The aggregation loop, over two parallel arrays that grow.

  /** Searches for the site, or adds an entry for it, doubling a full array. */
  method FindOrCreateSite(sites: array<SiteEntry>, count: nat, capacity: nat, site: AllocSite)
    returns (sites': array<SiteEntry>, count': nat, capacity': nat, idx: nat)
    requires count <= capacity == sites.Length && count < 0x8000_0000
    modifies sites
    ensures sites' == sites || fresh(sites')
    ensures sites'.Length == capacity' < 0x1_0000_0000 || capacity' == capacity
    ensures sites'.Length == capacity' && count' <= capacity'
    ensures capacity' == if count' > capacity then (if capacity == 0 then 16 else 2 * capacity) else capacity
    ensures (sites'[..count'], idx) == WithSite(old(sites[..count]), site)
  {
    ghost var entries := sites[..count];
    idx := 0;
    while idx < count
      invariant 0 <= idx <= count
      invariant IndexOf(entries, KeyOf(site), 0) == IndexOf(entries, KeyOf(site), idx)
    {
      if sites[idx].site.file == site.file && sites[idx].site.line == site.line {
        return sites, count, capacity, idx;
      }
      idx := idx + 1;
    }
    sites', capacity' := sites, capacity;
    if count >= capacity {
      capacity' := if capacity == 0 then 16 else Low32(capacity * 2);
      sites' := new SiteEntry[capacity'](_ => NO_ENTRY);
      forall k | 0 <= k < count {
        sites'[k] := sites[k];
      }
    }
    sites'[count] := SiteEntry(site, 0, 0, 0);
    assert sites'[..count] == entries;
    count' := count + 1;
    assert sites'[..count'] == entries + [SiteEntry(site, 0, 0, 0)];
  }

  /** Makes the tracking array as long as the sites array, new places at the sentinel. */
  method GrowTracking(last: array<GranuleId>, capacity: nat) returns (last': array<GranuleId>)
    ensures last' == last || fresh(last')
    ensures last'.Length >= capacity && last'.Length >= last.Length
    ensures last'[..last.Length] == last[..]
    ensures forall k :: last.Length <= k < last'.Length ==> last'[k] == SENTINEL
  {
    if capacity > last.Length {
      last' := new GranuleId[capacity](_ => SENTINEL);
      forall k | 0 <= k < last.Length {
        last'[k] := last[k];
      }
    } else {
      last' := last;
    }
  }

  /** The two arrays hold the aggregate, and places not yet used are at the sentinel. */
  ghost predicate Tracks(sites: array<SiteEntry>, count: nat, last: array<GranuleId>, a: Acc)
    reads sites, last
  {
    && count <= sites.Length <= last.Length
    && sites[..count] == AllStored(a.entries) && |a.last| == count
    && last[..count] == a.last
    && forall k :: count <= k < last.Length ==> last[k] == SENTINEL
  }

  lemma {:induction false} EntriesGrow(pins: seq<Pin>, n: nat)
    requires n <= |pins|
    ensures |AbsorbAll(pins[..n]).entries| <= |AbsorbAll(pins).entries|
    decreases |pins| - n
  {
    if n < |pins| {
      assert pins[..n + 1][..n] == pins[..n];
      EntriesGrow(pins, n + 1);
    } else {
      assert pins[..n] == pins;
    }
  }

  lemma StoredCharge(e: SiteEntry, size: nat, newGranule: bool)
    ensures Stored(Charge(e, size, newGranule)) == SiteEntry(
              e.site,
              if newGranule then Low32(Stored(e).pinningCount + 1) else Stored(e).pinningCount,
              Low32(Stored(e).totalAllocs + 1),
              Low64(Stored(e).totalBytes + size))
  {
    Low32Plus(e.pinningCount, 1);
    Low32Plus(e.totalAllocs, 1);
    Low64Plus(e.totalBytes, size);
  }

  lemma {:induction false} StoredIndexOf(entries: seq<SiteEntry>, key: Key, from: nat)
    requires from <= |entries|
    ensures IndexOf(AllStored(entries), key, from) == IndexOf(entries, key, from)
    decreases |entries| - from
  {
    if from < |entries| {
      StoredIndexOf(entries, key, from + 1);
    }
  }

  lemma StoredWithSite(entries: seq<SiteEntry>, site: AllocSite)
    ensures WithSite(AllStored(entries), site)
         == (AllStored(WithSite(entries, site).0), WithSite(entries, site).1)
  {
    StoredIndexOf(entries, KeyOf(site), 0);
    assert WithSite(AllStored(entries), site).0 == AllStored(WithSite(entries, site).0);
  }

  /** Charges one record to the entry of its site. */
  method ChargeEntry(sites: array<SiteEntry>, last: array<GranuleId>, siteIdx: nat,
                     granule: GranuleId, size: nat, ghost e: SiteEntry)
    requires siteIdx < sites.Length && siteIdx < last.Length && sites[siteIdx] == Stored(e)
    modifies sites, last
    ensures sites[..] == old(sites[..])[siteIdx :=
              Stored(Charge(e, size, old(last[siteIdx]) != granule))]
    ensures last[..] == old(last[..])[siteIdx := granule]
  {
    StoredCharge(e, size, last[siteIdx] != granule);
    var entry := sites[siteIdx];
    entry := entry.(totalAllocs := Low32(entry.totalAllocs + 1));
    entry := entry.(totalBytes := Low64(entry.totalBytes + size));
    if last[siteIdx] != granule {
      entry := entry.(pinningCount := Low32(entry.pinningCount + 1));
      last[siteIdx] := granule;
    }
    sites[siteIdx] := entry;
  }

  /** Finds or creates the entry of a site and keeps the tracking array in step. */
  method Enter(sites: array<SiteEntry>, count: nat, last: array<GranuleId>, site: AllocSite, ghost a: Acc)
    returns (sites': array<SiteEntry>, count': nat, last': array<GranuleId>, siteIdx: nat)
    requires |a.entries| == |a.last| && Tracks(sites, count, last, a) && count < 0x8000_0000
    modifies sites
    ensures sites' == sites || fresh(sites')
    ensures last' == last || fresh(last')
    ensures siteIdx == WithSite(a.entries, site).1
    ensures Tracks(sites', count', last', Acc(WithSite(a.entries, site).0,
              if siteIdx < |a.last| then a.last else a.last + [SENTINEL]))
  {
    var capacity;
    StoredWithSite(a.entries, site);
    sites', count', capacity, siteIdx := FindOrCreateSite(sites, count, sites.Length, site);
    last' := GrowTracking(last, capacity);
    assert last'[..count'] == if siteIdx < count then a.last else a.last + [SENTINEL];
  }

  /** A uint32_t counter that stands for `n` counts one more. */
  method Increment32(x: nat, ghost n: nat) returns (r: nat)
    requires x == Low32(n)
    ensures r == Low32(n + 1)
  {
    Low32Plus(n, 1);
    r := Low32(x + 1);
  }

  /** Charges one record to the arrays. */
  method Place(sites: array<SiteEntry>, count: nat, last: array<GranuleId>,
               granule: GranuleId, pa: PinningAlloc, ghost a: Acc)
    returns (sites': array<SiteEntry>, count': nat, last': array<GranuleId>)
    requires |a.entries| == |a.last| && Tracks(sites, count, last, a) && count < 0x8000_0000
    modifies sites, last
    ensures sites' == sites || fresh(sites')
    ensures last' == last || fresh(last')
    ensures Tracks(sites', count', last', Absorb(a, Pin(granule, pa)))
  {
    var siteIdx;
    sites', count', last', siteIdx := Enter(sites, count, last, pa.site, a);
    ghost var entries := WithSite(a.entries, pa.site).0;
    ghost var before, seen := sites'[..], last'[..];
    assert sites'[siteIdx] == sites'[..count'][siteIdx] && last'[siteIdx] == last'[..count'][siteIdx];
    ghost var charged := Charge(entries[siteIdx], pa.size, last'[siteIdx] != granule);
    ChargeEntry(sites', last', siteIdx, granule, pa.size, entries[siteIdx]);
    assert sites'[..count'] == before[..count'][siteIdx := Stored(charged)];
    assert sites'[..count'] == AllStored(entries[siteIdx := charged]);
    assert last'[..count'] == seen[..count'][siteIdx := granule];
  }

  /** One turn of the inner loop. */
  method AbsorbOne(sites: array<SiteEntry>, count: nat, last: array<GranuleId>, total: nat,
                   granule: GranuleId, pa: PinningAlloc, ghost a: Acc, ghost n: nat)
    returns (sites': array<SiteEntry>, count': nat, last': array<GranuleId>, total': nat)
    requires |a.entries| == |a.last| && Tracks(sites, count, last, a) && count < 0x8000_0000
    requires total == Low32(n)
    modifies sites, last
    ensures sites' == sites || fresh(sites')
    ensures last' == last || fresh(last')
    ensures Tracks(sites', count', last', Absorb(a, Pin(granule, pa)))
    ensures total' == Low32(n + 1)
  {
    total' := Increment32(total, n);
    sites', count', last' := Place(sites, count, last, granule, pa, a);
  }

  /** The first `j` records of report `i`, after those of all earlier reports. */
  ghost function PinsUpTo(reports: Reports, i: nat, j: nat): seq<Pin>
    requires i < |reports| && j <= |reports[i].pinningAllocs|
  {
    AllPins(reports[..i]) + PinsOf(reports[i])[..j]
  }

  lemma AbsorbNext(reports: Reports, i: nat, j: nat)
    requires i < |reports| && j < |reports[i].pinningAllocs|
    ensures |PinsUpTo(reports, i, j + 1)| == |PinsUpTo(reports, i, j)| + 1
    ensures AbsorbAll(PinsUpTo(reports, i, j + 1))
         == Absorb(AbsorbAll(PinsUpTo(reports, i, j)),
                   Pin(reports[i].granuleId, reports[i].pinningAllocs[j]))
  {
    var longer := PinsUpTo(reports, i, j + 1);
    assert longer[..|longer| - 1] == PinsUpTo(reports, i, j);
  }

  lemma PinsOfReport(reports: Reports, i: nat)
    requires i < |reports|
    ensures PinsUpTo(reports, i, 0) == AllPins(reports[..i])
    ensures PinsUpTo(reports, i, |reports[i].pinningAllocs|) == AllPins(reports[..i + 1])
  {
    var r := reports[i];
    assert reports[..i + 1][..i] == reports[..i];
    assert PinsOf(r)[..|r.pinningAllocs|] == PinsOf(r);
  }

  /** One turn of the inner loop, on record `j` of report `i`. */
  method AbsorbNth(sites: array<SiteEntry>, count: nat, last: array<GranuleId>, total: nat,
                   ghost reports: Reports, ghost i: nat, report: PinningReport, j: nat)
    returns (sites': array<SiteEntry>, count': nat, last': array<GranuleId>, total': nat)
    requires i < |reports| && report == reports[i] && j < |report.pinningAllocs|
    requires |AbsorbAll(AllPins(reports)).entries| <= 0x7fff_ffff
    requires Tracks(sites, count, last, AbsorbAll(PinsUpTo(reports, i, j)))
    requires total == Low32(|PinsUpTo(reports, i, j)|)
    modifies sites, last
    ensures sites' == sites || fresh(sites')
    ensures last' == last || fresh(last')
    ensures Tracks(sites', count', last', AbsorbAll(PinsUpTo(reports, i, j + 1)))
    ensures total' == Low32(|PinsUpTo(reports, i, j + 1)|)
  {
    PrefixBound(reports, i, j);
    AbsorbNext(reports, i, j);
    sites', count', last', total' :=
      AbsorbOne(sites, count, last, total, report.granuleId, report.pinningAllocs[j],
                AbsorbAll(PinsUpTo(reports, i, j)), |PinsUpTo(reports, i, j)|);
  }

  /** The inner loop: one report. */
  method AbsorbReport(sites: array<SiteEntry>, count: nat, last: array<GranuleId>, total: nat,
                      ghost reports: Reports, ghost i: nat, report: PinningReport)
    returns (sites': array<SiteEntry>, count': nat, last': array<GranuleId>, total': nat)
    requires i < |reports| && report == reports[i]
    requires report.pinningCount == |report.pinningAllocs|
    requires |AbsorbAll(AllPins(reports)).entries| <= 0x7fff_ffff
    requires Tracks(sites, count, last, AbsorbAll(AllPins(reports[..i])))
    requires total == Low32(|AllPins(reports[..i])|)
    modifies sites, last
    ensures sites' == sites || fresh(sites')
    ensures last' == last || fresh(last')
    ensures Tracks(sites', count', last', AbsorbAll(AllPins(reports[..i + 1])))
    ensures total' == Low32(|AllPins(reports[..i + 1])|)
  {
    PinsOfReport(reports, i);
    sites', count', last', total' := sites, count, last, total;
    for j := 0 to report.pinningCount
      invariant sites' == sites || fresh(sites')
      invariant last' == last || fresh(last')
      invariant Tracks(sites', count', last', AbsorbAll(PinsUpTo(reports, i, j)))
      invariant total' == Low32(|PinsUpTo(reports, i, j)|)
    {
      sites', count', last', total' := AbsorbNth(sites', count', last', total', reports, i, report, j);
    }
  }

  /** The report that is `i` places behind the oldest one. */
  method Nth(buf: Buffer, i: nat) returns (report: Option<PinningReport>)
    requires buf.Valid() && (buf.capacity <= 0x8000_0000 || buf.tail + buf.count <= 0x1_0000_0000)
    requires i < buf.count
    ensures report == Some(buf.contents[i])
  {
    var idx := ProbeIndex(buf.tail, i, buf.capacity);
    return buf.reports[idx];
  }

  /** Aggregates the buffered reports without consuming them. The number of distinct sites
      stays within what a 32-bit capacity can double to. */
  method Compute(buf: Buffer) returns (summary: DiagnosticSummary)
    requires buf.Valid() && (buf.capacity <= 0x8000_0000 || buf.tail + buf.count <= 0x1_0000_0000)
    requires forall r :: r in buf.contents ==> r.pinningCount == |r.pinningAllocs|
    requires |Summarize(buf.contents).sites| <= 0x7fff_ffff
    ensures summary == Summarize(buf.contents)
  {
    var sites := new SiteEntry[0];
    var siteCount: nat := 0;
    var last := new GranuleId[16](_ => SENTINEL);
    var totalPinningAllocs, reportsAnalyzed := 0, 0;
    ghost var reports := buf.contents;
    for i := 0 to buf.count
      invariant fresh(sites) && fresh(last)
      invariant Tracks(sites, siteCount, last, AbsorbAll(AllPins(reports[..i])))
      invariant totalPinningAllocs == Low32(|AllPins(reports[..i])|)
      invariant reportsAnalyzed == Low32(i)
    {
      var report := Nth(buf, i);
      if report.Some? {
        reportsAnalyzed := Increment32(reportsAnalyzed, i);
        sites, siteCount, last, totalPinningAllocs :=
          AbsorbReport(sites, siteCount, last, totalPinningAllocs, reports, i, report.value);
      }
    }
    assert reports[..buf.count] == reports;
    return DiagnosticSummary(sites[..siteCount], siteCount, totalPinningAllocs, reportsAnalyzed);
  }

  /** A prefix of the records has no more sites than all of them. */
  lemma PrefixBound(reports: Reports, i: nat, j: nat)
    requires i < |reports| && j <= |reports[i].pinningAllocs|
    ensures |AbsorbAll(PinsUpTo(reports, i, j)).entries| <= |AbsorbAll(AllPins(reports)).entries|
  {
    var pins := PinsUpTo(reports, i, j);
    PinsPrefix(reports, i);
    assert AllPins(reports)[..|pins|] == pins;
    EntriesGrow(AllPins(reports), |pins|);
  }

  lemma {:induction false} PinsPrefix(reports: Reports, i: nat)
    requires i < |reports|
    ensures AllPins(reports[..i]) + PinsOf(reports[i]) <= AllPins(reports)
  {
    var last := |reports| - 1;
    if i < last {
      PinsPrefix(reports[..last], i);
      assert reports[..last][..i] == reports[..i];
    }
  }
}
