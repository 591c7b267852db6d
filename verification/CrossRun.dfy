/** What the de-duplication of one correlator run sees of the cases that an earlier run stored. */
module CrossRun {
  import opened Text
  import opened Ports
  import opened Clusters
  import opened Rules
  import opened Correlator

  /** What the statements write of a case and read back; its rule type and source are in neither. */
  datatype CaseRow = CaseRow(isOpen: bool, severity: Severity, confidence: real, createdAt: int, eventIDs: seq<string>)

  function Inserted(c: NewCase): CaseRow {
    CaseRow(true, c.severity, c.confidence, c.createdAt, c.eventIDs)
  }

  /** A row as it is read back: the fields that the statement does not name have their zero value. */
  function Scanned(row: CaseRow): RecentCase {
    RecentCase(row.isOpen, row.createdAt, "", Unset)
  }

  function RowsOf(cases: seq<NewCase>): seq<CaseRow> {
    seq(|cases|, k requires 0 <= k < |cases| => Inserted(cases[k]))
  }

  function Listed(rows: seq<CaseRow>): seq<RecentCase> {
    seq(|rows|, k requires 0 <= k < |rows| => Scanned(rows[k]))
  }

  lemma {:induction false} VerdictIsSet(rules: seq<Rule>, cl: Profile)
    ensures Verdict(rules, cl) != Unset
  {
    if rules != [] {
      VerdictIsSet(rules[1..], cl);
    }
  }

  /** Whatever rows are listed, none of them is a duplicate of a new case. */
  lemma RowsNeverDuplicate(rules: seq<Rule>, cl: Profile, rows: seq<CaseRow>, cutoff: int)
    ensures !IsDuplicate(Listed(rows), cl.srcIP, Verdict(rules, cl), cutoff)
  {
    VerdictIsSet(rules, cl);
  }

  lemma SameOpens(i: Inputs, i': Inputs, rows: seq<CaseRow>, rows': seq<CaseRow>, ip: string)
    requires i.recent == Listed(rows) && i'.recent == Listed(rows')
    requires i' == i.(recent := i'.recent, cutoff := i'.cutoff)
    ensures Opens(i, ip) <==> Opens(i', ip)
  {
    if Mine(i.windowed, ip) != [] {
      var cl := Summary(Mine(i.windowed, ip));
      RowsNeverDuplicate(i.rules, cl, rows, i.cutoff);
      RowsNeverDuplicate(i.rules, cl, rows', i'.cutoff);
    }
  }

  lemma InRun(i: Inputs, cases: seq<NewCase>, c: NewCase)
    requires RunOpens(i, cases)
    ensures c in cases <==> IsCase(i, c)
  {
    if IsCase(i, c) {
      var d :| d in cases && d.srcIP == c.srcIP;
      assert IsCase(i, d);
    }
  }

  lemma OnceInRun(i: Inputs, cases: seq<NewCase>, c: NewCase)
    requires RunOpens(i, cases)
    ensures multiset(cases)[c] == if c in cases then 1 else 0
  {
    Seqs.NoDupMultiplicity(cases, c);
  }

  /** A second run over the same events opens every case of the first once more. */
  lemma SecondRunRepeats(i: Inputs, rows: seq<CaseRow>, cases: seq<NewCase>, cutoff': int, cases': seq<NewCase>)
    requires i.recent == Listed(rows) && RunOpens(i, cases)
    requires RunOpens(i.(recent := Listed(rows + RowsOf(cases)), cutoff := cutoff'), cases')
    ensures forall c :: c in cases' <==> c in cases
    ensures multiset(cases') == multiset(cases)
  {
    var i' := i.(recent := Listed(rows + RowsOf(cases)), cutoff := cutoff');
    forall c ensures c in cases' <==> c in cases {
      SameOpens(i, i', rows, rows + RowsOf(cases), c.srcIP);
      assert IsCase(i, c) <==> IsCase(i', c);
      InRun(i, cases, c);
      InRun(i', cases', c);
    }
    forall c ensures multiset(cases')[c] == multiset(cases)[c] {
      OnceInRun(i, cases, c);
      OnceInRun(i', cases', c);
    }
  }

  /** A case with the fields that the de-duplication compares. */
  function Intended(c: NewCase): RecentCase {
    RecentCase(true, c.createdAt, c.srcIP, c.ruleType)
  }

  /** Had the rows kept those fields, a second run would repeat exactly the cases first seen before its cutoff. */
  lemma IntendedDedupe(i: Inputs, cases: seq<NewCase>, i': Inputs, c: NewCase)
    requires RunOpens(i, cases) && c in cases
    requires i' == i.(recent := seq(|cases|, k requires 0 <= k < |cases| => Intended(cases[k])), cutoff := i'.cutoff)
    ensures Opens(i', c.srcIP) <==> c.createdAt < i'.cutoff
  {
    var cl := Summary(Mine(i.windowed, c.srcIP));
    assert IsCase(i, c);
    MineSource(i.windowed, c.srcIP, Mine(i.windowed, c.srcIP)[0]);
    assert cl.srcIP == c.srcIP && Verdict(i.rules, cl) == c.ruleType;
    var k :| 0 <= k < |cases| && cases[k] == c;
    assert i'.recent[k] == Intended(c);
    assert forall j :: 0 <= j < |cases| && cases[j].srcIP == c.srcIP ==> j == k;
  }

  // ----- a source that gets a case twice

  const SCANNER := "8.8.8.8"

  function Probe(id: string): Event {
    Event(id, 100, "tcp_syn", SCANNER, "192.168.1.20", 22, "TCP")
  }

  lemma ScannerIsExternal()
    ensures IsExternal(SCANNER)
  {
    forall p | p in LOCAL_PREFIXES ensures !HasPrefix(SCANNER, p) {
      assert p[0] != '8';
    }
  }

  const NO_ASN: AsnLookup := (ip: string) => None

  function ScannerRun(rows: seq<CaseRow>): Inputs {
    Inputs(Config(72 * 3600, 3), DefaultRules(Some(NO_ASN)), [Probe("a"), Probe("b"), Probe("c")], Listed(rows), 0, {})
  }

  lemma {:induction false} AllMine(es: seq<Event>, ip: string)
    requires forall e <- es :: e.srcIP == ip
    ensures Mine(es, ip) == es
  {
    if es != [] {
      AllMine(es[..|es| - 1], ip);
      assert es == es[..|es| - 1] + [es[|es| - 1]];
    }
  }

  lemma ScannerOpens(cutoff: int)
    ensures Opens(ScannerRun([]).(cutoff := cutoff), SCANNER)
  {
    var es, i := [Probe("a"), Probe("b"), Probe("c")], ScannerRun([]).(cutoff := cutoff);
    AllMine(es, SCANNER);
    ScannerIsExternal();
    ExternalVerdict(Some(NO_ASN), Summary(es));
    RowsNeverDuplicate(i.rules, Summary(es), [], cutoff);
  }

  /** Three probes from one address, the default rules, no ASN known: both runs open a case for it. */
  lemma ScannerGetsTwoCases(cases: seq<NewCase>, cases': seq<NewCase>)
    requires RunOpens(ScannerRun([]), cases) && RunOpens(ScannerRun(RowsOf(cases)), cases')
    ensures HasCase(cases, SCANNER) && HasCase(cases', SCANNER)
  {
    ScannerOpens(0);
    SameOpens(ScannerRun([]), ScannerRun(RowsOf(cases)), [], RowsOf(cases), SCANNER);
  }
}
