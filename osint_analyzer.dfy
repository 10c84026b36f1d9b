/**
 * The OSINT correlation analyzer: it compares commit times with operation
 * times, counts the operational skills a team's public profiles reveal, and
 * checks how much registration infrastructure a set of domains shares.
 *
 * Time stamps are whole seconds; the deltas are minutes as exact reals.
 */
module OsintAnalyzer {
  import opened Common

  // ---------------------------------------------------------------------------
  // GitHub timing
  // ---------------------------------------------------------------------------

  /** `abs((git_time - op_time).total_seconds() / 60)`: the distance of two times in minutes. */
  function Delta(gitTime: int, opTime: int): (d: real)
    ensures d >= 0.0
    ensures d == 0.0 <==> gitTime == opTime
  {
    (AbsDiff(gitTime, opTime) as real) / 60.0
  }

  /** The distance does not depend on which time comes first. */
  lemma DeltaSymmetric(a: int, b: int)
    ensures Delta(a, b) == Delta(b, a)
  {
  }

  function MinLength(a: nat, b: nat): (n: nat)
    ensures n <= a && n <= b && (n == a || n == b)
  {
    if a <= b then a else b
  }

  /**
   * The deltas the analyzer collects: commit `i` is paired with operation `i`,
   * for the pairs both lists have.
   */
  ghost function PairedDeltas(commits: seq<int>, ops: seq<int>): (d: seq<real>)
    ensures |d| == MinLength(|commits|, |ops|)
    ensures forall i :: 0 <= i < |d| ==> d[i] == Delta(commits[i], ops[i])
  {
    seq(MinLength(|commits|, |ops|), i requires 0 <= i < MinLength(|commits|, |ops|) => Delta(commits[i], ops[i]))
  }

  function Sum(xs: seq<real>): real
  {
    if xs == [] then 0.0 else Sum(xs[..|xs| - 1]) + xs[|xs| - 1]
  }

  lemma {:induction false} SumNonNegative(xs: seq<real>)
    requires forall i :: 0 <= i < |xs| ==> xs[i] >= 0.0
    ensures Sum(xs) >= 0.0
    decreases |xs|
  {
    if xs != [] {
      SumNonNegative(xs[..|xs| - 1]);
    }
  }

  /** `sum(deltas) / len(deltas) if deltas else 0`. */
  ghost function AverageDelta(commits: seq<int>, ops: seq<int>): real
  {
    var d := PairedDeltas(commits, ops);
    if d == [] then 0.0 else Sum(d) / (|d| as real)
  }

  /** The average delta is never negative. */
  lemma AverageDeltaNonNegative(commits: seq<int>, ops: seq<int>)
    ensures AverageDelta(commits, ops) >= 0.0
  {
    SumNonNegative(PairedDeltas(commits, ops));
  }

  /** Swapping the roles of commits and operations changes nothing. */
  lemma AverageDeltaSymmetric(commits: seq<int>, ops: seq<int>)
    ensures AverageDelta(commits, ops) == AverageDelta(ops, commits)
  {
    forall i | 0 <= i < MinLength(|commits|, |ops|) ensures Delta(commits[i], ops[i]) == Delta(ops[i], commits[i]) {
      DeltaSymmetric(commits[i], ops[i]);
    }
    assert PairedDeltas(commits, ops) == PairedDeltas(ops, commits);
  }

  /** Only the first `min(len)` pairs matter: longer tails are ignored. */
  lemma AverageDeltaIgnoresTail(commits: seq<int>, ops: seq<int>, extra: seq<int>)
    requires |commits| <= |ops|
    ensures AverageDelta(commits, ops + extra) == AverageDelta(commits, ops)
  {
    assert PairedDeltas(commits, ops + extra) == PairedDeltas(commits, ops);
  }

  /** The correlation and risk of an average delta. */
  function GithubBand(avgDelta: real): (band: (real, Risk))
    ensures avgDelta < 30.0 <==> band == (0.95, Critical)
    ensures 30.0 <= avgDelta < 120.0 <==> band == (0.75, High)
    ensures avgDelta >= 120.0 <==> band == (0.4, Medium)
  {
    if avgDelta < 30.0 then (0.95, Critical)
    else if avgDelta < 120.0 then (0.75, High)
    else (0.4, Medium)
  }

  datatype GithubTiming = GithubTiming(
    avgTimeDeltaMinutes: real,
    correlationCoefficient: real,
    visibility: real,
    retention: real,
    attributionWeight: real,
    risk: Risk,
    mitigation: string)

  /**
   * `analyze_github_timing`: the average distance of paired commit and
   * operation times, 0 when there are no pairs; its band gives the
   * correlation and the risk, and the weight equals the correlation since
   * visibility and retention are both 1.0.
   */
  method AnalyzeGithubTiming(commitTimes: seq<int>, operationalTimes: seq<int>) returns (r: GithubTiming)
    ensures r.avgTimeDeltaMinutes == AverageDelta(commitTimes, operationalTimes)
    ensures r.avgTimeDeltaMinutes >= 0.0
    ensures (r.correlationCoefficient, r.risk) == GithubBand(r.avgTimeDeltaMinutes)
    ensures r.visibility == 1.0 && r.retention == 1.0
    ensures r.attributionWeight == r.correlationCoefficient
    ensures MinLength(|commitTimes|, |operationalTimes|) == 0 ==> r.risk == Critical && r.attributionWeight == 0.95
  {
    var deltas: seq<real> := [];
    for i := 0 to |commitTimes|
      invariant deltas == PairedDeltas(commitTimes[..i], operationalTimes)
    {
      if i < |operationalTimes| {
        deltas := deltas + [Delta(commitTimes[i], operationalTimes[i])];
      }
      assert PairedDeltas(commitTimes[..i + 1], operationalTimes)
          == PairedDeltas(commitTimes[..i], operationalTimes)
             + (if i < |operationalTimes| then [Delta(commitTimes[i], operationalTimes[i])] else []);
    }
    assert commitTimes[..|commitTimes|] == commitTimes;
    var avgDelta := if deltas != [] then Sum(deltas) / (|deltas| as real) else 0.0;
    AverageDeltaNonNegative(commitTimes, operationalTimes);
    var band := GithubBand(avgDelta);
    var aw := 1.0 * 1.0 * band.0;
    r := GithubTiming(avgDelta, band.0, 1.0, 1.0, aw, band.1, "Randomize commit times ±6 hours minimum");
  }

  // ---------------------------------------------------------------------------
  // LinkedIn team inference
  // ---------------------------------------------------------------------------

  function SetOf(s: seq<string>): set<string>
  {
    set x | x in s
  }

  datatype LinkedinResult = LinkedinResult(matchedSkills: nat, attributionWeight: real, risk: Risk, mitigation: string)

  /**
   * `analyze_linkedin_team`: the number of distinct values both lists
   * contain; more than 5 is HIGH (0.8), more than 2 MEDIUM (0.5), else LOW (0.3).
   */
  function AnalyzeLinkedinTeam(employees: seq<string>, operationalSkills: seq<string>): (r: LinkedinResult)
    ensures r.matchedSkills == |SetOf(employees) * SetOf(operationalSkills)|
    ensures r.matchedSkills <= |SetOf(employees)| && r.matchedSkills <= |SetOf(operationalSkills)|
    ensures r.matchedSkills > 5 <==> (r.attributionWeight, r.risk) == (0.8, High)
    ensures 2 < r.matchedSkills <= 5 <==> (r.attributionWeight, r.risk) == (0.5, Medium)
    ensures r.matchedSkills <= 2 <==> (r.attributionWeight, r.risk) == (0.3, Low)
  {
    var common := SetOf(employees) * SetOf(operationalSkills);
    assert common <= SetOf(employees) && common <= SetOf(operationalSkills);
    SubsetCard(common, SetOf(employees));
    SubsetCard(common, SetOf(operationalSkills));
    var skillMatches := |common|;
    var mitigation := "Compartmentalize: separate operational from public identities";
    if skillMatches > 5 then LinkedinResult(skillMatches, 0.8, High, mitigation)
    else if skillMatches > 2 then LinkedinResult(skillMatches, 0.5, Medium, mitigation)
    else LinkedinResult(skillMatches, 0.3, Low, mitigation)
  }

  lemma SubsetCard(a: set<string>, b: set<string>)
    requires a <= b
    ensures |a| <= |b|
  {
    assert b == a + (b - a);
  }

  /** Repeating a name on either list changes nothing, and the two lists play symmetric roles. */
  lemma LinkedinIgnoresDuplicates(employees: seq<string>, skills: seq<string>, x: string)
    requires x in employees
    ensures AnalyzeLinkedinTeam(employees + [x], skills) == AnalyzeLinkedinTeam(employees, skills)
    ensures AnalyzeLinkedinTeam(skills, employees) == AnalyzeLinkedinTeam(employees, skills)
  {
    assert SetOf(employees + [x]) == SetOf(employees);
    assert SetOf(skills) * SetOf(employees) == SetOf(employees) * SetOf(skills);
  }

  // ---------------------------------------------------------------------------
  // WHOIS correlation
  // ---------------------------------------------------------------------------

  /** A WHOIS record; either key may be missing. */
  datatype Domain = Domain(registrar: Option<string>, nameservers: Option<seq<string>>)
  {
    /** `domain.get('registrar', 'unknown')`. */
    function Registrar(): string
    {
      if registrar.Some? then registrar.value else "unknown"
    }

    /** `domain.get('nameservers', [])`. */
    function Servers(): seq<string>
    {
      if nameservers.Some? then nameservers.value else []
    }
  }

  /** The registrar set after visiting `domains`. */
  ghost function Registrars(domains: seq<Domain>): set<string>
  {
    if domains == [] then {} else Registrars(domains[..|domains| - 1]) + {domains[|domains| - 1].Registrar()}
  }

  /** The nameserver set after visiting `domains`. */
  ghost function Nameservers(domains: seq<Domain>): set<string>
  {
    if domains == [] then {} else Nameservers(domains[..|domains| - 1]) + SetOf(domains[|domains| - 1].Servers())
  }

  /** A registrar is collected exactly when some domain names it (or lacks one, for 'unknown'). */
  lemma {:induction false} RegistrarsExact(domains: seq<Domain>, x: string)
    ensures x in Registrars(domains) <==> exists i :: 0 <= i < |domains| && domains[i].Registrar() == x
    decreases |domains|
  {
    if domains != [] {
      var front := domains[..|domains| - 1];
      RegistrarsExact(front, x);
      if x in Registrars(front) {
        var i :| 0 <= i < |front| && front[i].Registrar() == x;
        assert domains[i] == front[i];
      }
      if exists i :: 0 <= i < |domains| && domains[i].Registrar() == x {
        var i :| 0 <= i < |domains| && domains[i].Registrar() == x;
        if i < |front| {
          assert front[i] == domains[i];
        }
      }
    }
  }

  /** A nameserver is collected exactly when some domain lists it. */
  lemma {:induction false} NameserversExact(domains: seq<Domain>, x: string)
    ensures x in Nameservers(domains) <==> exists i :: 0 <= i < |domains| && x in domains[i].Servers()
    decreases |domains|
  {
    if domains != [] {
      var front := domains[..|domains| - 1];
      NameserversExact(front, x);
      if x in Nameservers(front) {
        var i :| 0 <= i < |front| && x in front[i].Servers();
        assert domains[i] == front[i];
      }
      if exists i :: 0 <= i < |domains| && x in domains[i].Servers() {
        var i :| 0 <= i < |domains| && x in domains[i].Servers();
        if i < |front| {
          assert front[i] == domains[i];
        }
      }
    }
  }

  /** The weight and risk of the two set sizes. */
  function WhoisBand(registrars: nat, nameservers: nat): (band: (real, Risk))
    ensures registrars == 1 && nameservers <= 2 <==> band == (0.85, Critical)
    ensures !(registrars == 1 && nameservers <= 2) && registrars <= 2 <==> band == (0.6, High)
    ensures registrars > 2 <==> band == (0.3, Medium)
  {
    if registrars == 1 && nameservers <= 2 then (0.85, Critical)
    else if registrars <= 2 then (0.6, High)
    else (0.3, Medium)
  }

  datatype WhoisResult = WhoisResult(
    uniqueRegistrars: nat,
    uniqueNameservers: nat,
    attributionWeight: real,
    risk: Risk,
    mitigation: string)

  /** The inner loop: add one domain's nameservers. */
  method AddServers(nameservers0: set<string>, servers: seq<string>) returns (nameservers: set<string>)
    ensures nameservers == nameservers0 + SetOf(servers)
  {
    nameservers := nameservers0;
    for j := 0 to |servers|
      invariant nameservers == nameservers0 + SetOf(servers[..j])
    {
      assert SetOf(servers[..j + 1]) == SetOf(servers[..j]) + {servers[j]} by {
        assert servers[..j + 1] == servers[..j] + [servers[j]];
      }
      nameservers := nameservers + {servers[j]};
    }
    assert servers[..|servers|] == servers;
  }

  /**
   * `analyze_whois_correlation`: the registrars (a missing one counts as
   * 'unknown') and the nameservers of all domains are collected as sets;
   * a single registrar with at most two nameservers is CRITICAL, at most two
   * registrars HIGH, otherwise MEDIUM. No domains at all is therefore HIGH.
   */
  method AnalyzeWhoisCorrelation(domains: seq<Domain>) returns (r: WhoisResult)
    ensures r.uniqueRegistrars == |Registrars(domains)| && r.uniqueNameservers == |Nameservers(domains)|
    ensures (r.attributionWeight, r.risk) == WhoisBand(r.uniqueRegistrars, r.uniqueNameservers)
    ensures domains == [] ==> r.risk == High && r.attributionWeight == 0.6
    ensures domains != [] ==> r.uniqueRegistrars >= 1
  {
    var registrars: set<string> := {};
    var nameservers: set<string> := {};
    for k := 0 to |domains|
      invariant registrars == Registrars(domains[..k])
      invariant nameservers == Nameservers(domains[..k])
    {
      assert domains[..k + 1][..k] == domains[..k];
      registrars := registrars + {domains[k].Registrar()};
      nameservers := AddServers(nameservers, domains[k].Servers());
    }
    assert domains[..|domains|] == domains;
    if domains != [] {
      assert domains[|domains| - 1].Registrar() in registrars;
    }
    var band := WhoisBand(|registrars|, |nameservers|);
    r := WhoisResult(|registrars|, |nameservers|, band.0, band.1, "Use diverse registrars and DNS providers");
  }
}
