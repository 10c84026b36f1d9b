/**
 * The APT operations analyzer: it scores how disciplined a campaign's
 * operational security is, recognises living-off-the-land tools, weighs
 * activity timed to avoid a security operations centre, and combines four
 * OPSEC metrics into one multiplicative score.
 *
 * Every dictionary argument becomes a datatype whose fields are `Option`s: a
 * missing key is `None` and falls back to the default the analyzer uses.
 */
module AptAnalyzer {
  import opened Common

  /** `d.get(key, default)` on a key read as `o`: the stored value when present, else the default. */
  function Get(o: Option<real>, default: real): (r: real)
    ensures o.Some? ==> r == o.value
    ensures o.None? ==> r == default
  {
    if o.Some? then o.value else default
  }

  // ---------------------------------------------------------------------------
  // Operational discipline
  // ---------------------------------------------------------------------------

  datatype CampaignData = CampaignData(
    infrastructureLifetimeDays: Option<real>,
    uniqueToolsPerCampaign: Option<real>,
    activityDuringTargetHours: Option<real>,
    crossCampaignOverlap: Option<real>,
    usesMultistagePayloads: Option<bool>)

  /** One scoring rule's outcome: the points it adds and the indicator it reports, if any. */
  datatype Award = Award(points: nat, indicator: seq<string>)
  {
    /** The rule adds points exactly when it reports an indicator, and at most 20. */
    ghost predicate Valid()
    {
      points <= 20 && points % 10 == 0 && (indicator == [] <==> points == 0) && |indicator| <= 1
    }
  }

  /** Infrastructure lifetime: under 30 days earns 20, under 60 days 10. */
  function RotationAward(days: real): (a: Award)
    ensures a.Valid()
    ensures a.points == 20 <==> days < 30.0
    ensures a.points == 10 <==> 30.0 <= days < 60.0
  {
    if days < 30.0 then Award(20, ["Rapid infrastructure rotation (< 30 days)"])
    else if days < 60.0 then Award(10, ["Moderate infrastructure rotation(< 60 days)"])
    else Award(0, [])
  }

  /** Tool uniqueness: above 0.8 earns 20, above 0.5 earns 10. */
  function ToolAward(uniqueness: real): (a: Award)
    ensures a.Valid()
    ensures a.points == 20 <==> uniqueness > 0.8
    ensures a.points == 10 <==> 0.5 < uniqueness <= 0.8
  {
    if uniqueness > 0.8 then Award(20, ["High tool compartmentalization (>80% unique)"])
    else if uniqueness > 0.5 then Award(10, ["Moderate tool uniqueness"])
    else Award(0, [])
  }

  /** Activity during the target's hours: above 0.9 earns 20, above 0.7 earns 10. */
  function TimingAward(share: real): (a: Award)
    ensures a.Valid()
    ensures a.points == 20 <==> share > 0.9
    ensures a.points == 10 <==> 0.7 < share <= 0.9
  {
    if share > 0.9 then Award(20, ["Strong timing discipline (90% during business hours)"])
    else if share > 0.7 then Award(10, ["Moderate timing discipline"])
    else Award(0, [])
  }

  /** Cross-campaign overlap, where less is better: under 0.1 earns 20, under 0.3 earns 10. */
  function OverlapAward(overlap: real): (a: Award)
    ensures a.Valid()
    ensures a.points == 20 <==> overlap < 0.1
    ensures a.points == 10 <==> 0.1 <= overlap < 0.3
  {
    if overlap < 0.1 then Award(20, ["No infrastructure reuse across campaigns"])
    else if overlap < 0.3 then Award(10, ["Minimal infrastructure overlap"])
    else Award(0, [])
  }

  /** Multi-stage payloads earn 20 or nothing. */
  function MultistageAward(uses: bool): (a: Award)
    ensures a.Valid()
    ensures a.points == (if uses then 20 else 0)
  {
    if uses then Award(20, ["Multi-stage payload deployment"]) else Award(0, [])
  }

  /** The five rules in the order the analyzer applies them, with its defaults for missing keys. */
  function Awards(c: CampaignData): (awards: seq<Award>)
    ensures |awards| == 5
    ensures forall k :: 0 <= k < 5 ==> awards[k].Valid()
  {
    [ RotationAward(Get(c.infrastructureLifetimeDays, 90.0)),
      ToolAward(Get(c.uniqueToolsPerCampaign, 0.3)),
      TimingAward(Get(c.activityDuringTargetHours, 0.5)),
      OverlapAward(Get(c.crossCampaignOverlap, 0.5)),
      MultistageAward(c.usesMultistagePayloads == Some(true)) ]
  }

  function TotalPoints(awards: seq<Award>): nat
  {
    if awards == [] then 0 else TotalPoints(awards[..|awards| - 1]) + awards[|awards| - 1].points
  }

  function AllIndicators(awards: seq<Award>): seq<string>
  {
    if awards == [] then [] else AllIndicators(awards[..|awards| - 1]) + awards[|awards| - 1].indicator
  }

  /** Summing valid awards: a multiple of 10, at most 20 per rule, one indicator per scoring rule. */
  lemma {:induction false} TotalsOfValidAwards(awards: seq<Award>)
    requires forall k :: 0 <= k < |awards| ==> awards[k].Valid()
    ensures TotalPoints(awards) % 10 == 0
    ensures TotalPoints(awards) <= 20 * |awards|
    ensures |AllIndicators(awards)| <= |awards|
    ensures AllIndicators(awards) == [] <==> TotalPoints(awards) == 0
    decreases |awards|
  {
    if awards != [] {
      TotalsOfValidAwards(awards[..|awards| - 1]);
    }
  }

  /** The totals of five awards, written out. */
  lemma FiveAwards(a: seq<Award>)
    requires |a| == 5
    ensures TotalPoints(a) == 0 + a[0].points + a[1].points + a[2].points + a[3].points + a[4].points
    ensures AllIndicators(a) == [] + a[0].indicator + a[1].indicator + a[2].indicator + a[3].indicator + a[4].indicator
  {
    assert a[..5] == a;
    assert a[..4][..3] == a[..3] && a[..3][..2] == a[..2] && a[..2][..1] == a[..1] && a[..1][..0] == [];
    assert TotalPoints(a[..1]) == a[0].points && AllIndicators(a[..1]) == a[0].indicator;
    assert TotalPoints(a[..2]) == TotalPoints(a[..1]) + a[1].points && AllIndicators(a[..2]) == AllIndicators(a[..1]) + a[1].indicator;
    assert TotalPoints(a[..3]) == TotalPoints(a[..2]) + a[2].points && AllIndicators(a[..3]) == AllIndicators(a[..2]) + a[2].indicator;
    assert TotalPoints(a[..4]) == TotalPoints(a[..3]) + a[3].points && AllIndicators(a[..4]) == AllIndicators(a[..3]) + a[3].indicator;
    assert TotalPoints(a) == TotalPoints(a[..4]) + a[4].points && AllIndicators(a) == AllIndicators(a[..4]) + a[4].indicator;
  }

  /** The totals of the five rules, rule by rule, and what their validity gives. */
  lemma DisciplineTotals(c: CampaignData)
    ensures var a := Awards(c);
            TotalPoints(a) == 0 + RotationAward(Get(c.infrastructureLifetimeDays, 90.0)).points
              + ToolAward(Get(c.uniqueToolsPerCampaign, 0.3)).points
              + TimingAward(Get(c.activityDuringTargetHours, 0.5)).points
              + OverlapAward(Get(c.crossCampaignOverlap, 0.5)).points
              + MultistageAward(c.usesMultistagePayloads == Some(true)).points
    ensures var a := Awards(c);
            AllIndicators(a) == [] + RotationAward(Get(c.infrastructureLifetimeDays, 90.0)).indicator
              + ToolAward(Get(c.uniqueToolsPerCampaign, 0.3)).indicator
              + TimingAward(Get(c.activityDuringTargetHours, 0.5)).indicator
              + OverlapAward(Get(c.crossCampaignOverlap, 0.5)).indicator
              + MultistageAward(c.usesMultistagePayloads == Some(true)).indicator
    ensures TotalPoints(Awards(c)) % 10 == 0 && TotalPoints(Awards(c)) <= 100
    ensures |AllIndicators(Awards(c))| <= 5
    ensures AllIndicators(Awards(c)) == [] <==> TotalPoints(Awards(c)) == 0
  {
    FiveAwards(Awards(c));
    TotalsOfValidAwards(Awards(c));
  }

  datatype DisciplineResult = DisciplineResult(
    disciplineScore: nat,
    classification: string,
    indicators: seq<string>,
    attributionWeight: real,
    risk: Risk)

  /** The classification, weight and risk of a score; every lower bound is inclusive. */
  function DisciplineBand(score: int): (band: (string, real, Risk))
    ensures score >= 70 ==> band == ("APT-level (Nation-state)", 0.85, Critical)
    ensures 50 <= score < 70 ==> band == ("Sophisticated actor", 0.65, High)
    ensures 30 <= score < 50 ==> band == ("Intermediate", 0.45, Medium)
    ensures score < 30 ==> band == ("Low sophistication", 0.25, Low)
  {
    if score >= 70 then ("APT-level (Nation-state)", 0.85, Critical)
    else if score >= 50 then ("Sophisticated actor", 0.65, High)
    else if score >= 30 then ("Intermediate", 0.45, Medium)
    else ("Low sophistication", 0.25, Low)
  }

  /** A higher score never lowers the weight or the risk. */
  lemma DisciplineBandMonotone(a: int, b: int)
    requires a <= b
    ensures DisciplineBand(a).1 <= DisciplineBand(b).1
    ensures DisciplineBand(a).2.Rank() <= DisciplineBand(b).2.Rank()
  {
  }

  /**
   * `analyze_operational_discipline`: the five rules add their points and
   * indicators one after the other; the score is a multiple of 10 in
   * [0, 100], there is one indicator per rule that scored, and the band of
   * the score gives classification, weight and risk.
   */
  method AnalyzeOperationalDiscipline(campaign: CampaignData) returns (r: DisciplineResult)
    ensures r.disciplineScore == TotalPoints(Awards(campaign))
    ensures r.indicators == AllIndicators(Awards(campaign))
    ensures r.disciplineScore % 10 == 0 && r.disciplineScore <= 100
    ensures |r.indicators| <= 5
    ensures r.indicators == [] <==> r.disciplineScore == 0
    ensures (r.classification, r.attributionWeight, r.risk) == DisciplineBand(r.disciplineScore)
  {
    var score := 0;
    var indicators: seq<string> := [];
    var rotation := RotationAward(Get(campaign.infrastructureLifetimeDays, 90.0));
    score, indicators := score + rotation.points, indicators + rotation.indicator;
    var tools := ToolAward(Get(campaign.uniqueToolsPerCampaign, 0.3));
    score, indicators := score + tools.points, indicators + tools.indicator;
    var timing := TimingAward(Get(campaign.activityDuringTargetHours, 0.5));
    score, indicators := score + timing.points, indicators + timing.indicator;
    var overlap := OverlapAward(Get(campaign.crossCampaignOverlap, 0.5));
    score, indicators := score + overlap.points, indicators + overlap.indicator;
    var multistage := MultistageAward(campaign.usesMultistagePayloads == Some(true));
    score, indicators := score + multistage.points, indicators + multistage.indicator;
    DisciplineTotals(campaign);
    var band := DisciplineBand(score);
    r := DisciplineResult(score, band.0, indicators, band.1, band.2);
  }

  /** With every key missing the campaign scores nothing and is classed low. */
  lemma DefaultCampaignIsLow()
    ensures TotalPoints(Awards(CampaignData(None, None, None, None, None))) == 0
    ensures DisciplineBand(0) == ("Low sophistication", 0.25, Low)
  {
    FiveAwards(Awards(CampaignData(None, None, None, None, None)));
  }

  // ---------------------------------------------------------------------------
  // Living off the land
  // ---------------------------------------------------------------------------

  /** `str.lower` on the ASCII letters. */
  function Lower(s: string): (r: string)
    ensures |r| == |s|
    ensures forall k :: 0 <= k < |s| ==> r[k] == (if 'A' <= s[k] <= 'Z' then (s[k] as int + 32) as char else s[k])
  {
    if s == [] then []
    else
      var c := s[0];
      [if 'A' <= c <= 'Z' then (c as int + 32) as char else c] + Lower(s[1..])
  }

  /** Lowering twice is lowering once. */
  lemma LowerIdempotent(s: string)
    ensures Lower(Lower(s)) == Lower(s)
  {
    var once := Lower(s);
    assert forall k :: 0 <= k < |s| ==> !('A' <= once[k] <= 'Z');
  }

  /** The tools known per operating system; an unknown system has none. */
  function LotlTools(osType: string): (tools: seq<string>)
    ensures osType !in {"windows", "linux", "macos"} ==> tools == []
  {
    if osType == "windows" then
      ["powershell.exe", "wmic.exe", "mshta.exe", "regsvr32.exe", "rundll32.exe", "msiexec.exe", "bitsadmin.exe", "certutil.exe"]
    else if osType == "linux" then ["bash", "sh", "curl", "wget", "nc", "python", "perl", "ruby"]
    else if osType == "macos" then ["osascript", "launchctl", "bash", "python", "ruby"]
    else []
  }

  datatype ProcessData = ProcessData(osType: Option<string>, processName: Option<string>)
  {
    /** `os_type`, Windows when missing. */
    function Os(): string
    {
      if osType.Some? then osType.value else "windows"
    }

    /** `process_name`, empty when missing. */
    function Name(): string
    {
      if processName.Some? then processName.value else ""
    }
  }

  /** The result of `detect_lotl_usage`: a recognised tool with its fixed assessment, or not. */
  datatype LotlResult =
    | Lotl(tool: string, visibility: real, retention: real, correlation: real,
           attributionWeight: real, risk: Risk, note: string)
    | NotLotl(attributionWeight: real)

  /**
   * `detect_lotl_usage`: the process is LOTL exactly when its lower-cased name
   * is one of the tools of its operating system (Windows when unspecified);
   * a LOTL tool weighs 0.18, anything else 0.6.
   */
  function DetectLotlUsage(p: ProcessData): (r: LotlResult)
    ensures r.Lotl? <==> Lower(p.Name()) in LotlTools(p.Os())
    ensures r.Lotl? ==> r.tool == Lower(p.Name()) && r.attributionWeight == 0.18 && r.risk == Low
                        && r.visibility == 0.5 && r.retention == 0.9 && r.correlation == 0.4
    ensures r.NotLotl? ==> r.attributionWeight == 0.6
    ensures p.Os() !in {"windows", "linux", "macos"} ==> r.NotLotl?
  {
    var processName := Lower(p.Name());
    if processName in LotlTools(p.Os()) then
      Lotl(processName, 0.5, 0.9, 0.4, 0.18, Low, "Blends with legitimate admin activity")
    else NotLotl(0.6)
  }

  /** The case of the process name does not matter. */
  lemma LotlIgnoresCase(os: Option<string>, name: string)
    ensures DetectLotlUsage(ProcessData(os, Some(name))) == DetectLotlUsage(ProcessData(os, Some(Lower(name))))
  {
    LowerIdempotent(name);
  }

  // ---------------------------------------------------------------------------
  // Timing evasion
  // ---------------------------------------------------------------------------

  /** A time stamp reduced to what the analyzer reads: the hour and the weekday (Monday is 0). */
  datatype Timestamp = Timestamp(hour: int, weekday: int)

  /** `[h for h in hours if 2 <= h <= 5]`. */
  function LowSocHours(ts: seq<Timestamp>): (r: seq<int>)
    ensures |r| <= |ts|
    ensures forall k :: 0 <= k < |r| ==> 2 <= r[k] <= 5
    ensures |r| == |ts| <==> forall k :: 0 <= k < |ts| ==> 2 <= ts[k].hour <= 5
  {
    if ts == [] then []
    else
      var last := ts[|ts| - 1];
      LowSocHours(ts[..|ts| - 1]) + (if 2 <= last.hour <= 5 then [last.hour] else [])
  }

  /** `[ts for ts in activity_timestamps if ts.weekday() >= 5]`. */
  function WeekendActivity(ts: seq<Timestamp>): (r: seq<Timestamp>)
    ensures |r| <= |ts|
    ensures forall k :: 0 <= k < |r| ==> r[k].weekday >= 5 && r[k] in ts
    ensures |r| == |ts| <==> forall k :: 0 <= k < |ts| ==> ts[k].weekday >= 5
  {
    if ts == [] then []
    else
      var last := ts[|ts| - 1];
      WeekendActivity(ts[..|ts| - 1]) + (if last.weekday >= 5 then [last] else [])
  }

  datatype TimingEvasion =
    | NoActivity(attributionWeight: real)
    | EvasionHigh(lowSocHoursRatio: real, weekendRatio: real, visibility: real, retention: real,
                  correlation: real, attributionWeight: real, risk: Risk, note: string)
    | EvasionNone(attributionWeight: real)

  /**
   * `analyze_timing_evasion`: no activity weighs 0.0; otherwise evasion is HIGH
   * (weight 0.14) exactly when more than 70% of the activity falls in the
   * hours 2 to 5 or more than half of it on a weekend, and NONE (0.5) else.
   */
  function AnalyzeTimingEvasion(ts: seq<Timestamp>): (r: TimingEvasion)
    ensures ts == [] <==> r.NoActivity?
    ensures r.NoActivity? ==> r.attributionWeight == 0.0
    ensures ts != [] ==>
              (r.EvasionHigh? <==>
                 ((|LowSocHours(ts)| as real) / (|ts| as real) > 0.7 || (|WeekendActivity(ts)| as real) / (|ts| as real) > 0.5))
    ensures r.EvasionHigh? ==> r.attributionWeight == 0.14 && r.risk == Low
                               && 0.0 <= r.lowSocHoursRatio <= 1.0 && 0.0 <= r.weekendRatio <= 1.0
    ensures r.EvasionHigh? ==> r.lowSocHoursRatio == (|LowSocHours(ts)| as real) / (|ts| as real)
                               && r.weekendRatio == (|WeekendActivity(ts)| as real) / (|ts| as real)
                               && (r.visibility, r.retention, r.correlation) == (0.3, 0.9, 0.5)
    ensures r.EvasionNone? ==> r.attributionWeight == 0.5
  {
    if ts == [] then NoActivity(0.0)
    else
      var n := |ts| as real;
      var lowSocRatio := (|LowSocHours(ts)| as real) / n;
      var weekendRatio := (|WeekendActivity(ts)| as real) / n;
      assert 0.0 <= lowSocRatio <= 1.0 by { RatioInUnit(|LowSocHours(ts)|, |ts|); }
      assert 0.0 <= weekendRatio <= 1.0 by { RatioInUnit(|WeekendActivity(ts)|, |ts|); }
      if lowSocRatio > 0.7 || weekendRatio > 0.5 then
        EvasionHigh(lowSocRatio, weekendRatio, 0.3, 0.9, 0.5, 0.14, Low, "Activity concentrated during low-SOC periods")
      else EvasionNone(0.5)
  }

  /** Activity entirely in the small hours is always HIGH. */
  lemma SmallHoursEvade(ts: seq<Timestamp>)
    requires ts != [] && forall k :: 0 <= k < |ts| ==> 2 <= ts[k].hour <= 5
    ensures AnalyzeTimingEvasion(ts).EvasionHigh?
  {
    assert |LowSocHours(ts)| == |ts|;
    assert (|ts| as real) / (|ts| as real) == 1.0;
  }

  // ---------------------------------------------------------------------------
  // APT OPSEC score
  // ---------------------------------------------------------------------------

  datatype Metrics = Metrics(
    infrastructureTurnover: Option<real>,
    toolCompartmentalization: Option<real>,
    timingDiscipline: Option<real>,
    antiForensics: Option<real>)

  datatype AptOpsecScore = AptOpsecScore(
    aptOpsecScore: real,
    classification: string,
    risk: Risk,
    infrastructureTurnover: real,
    toolCompartmentalization: real,
    timingDiscipline: real,
    antiForensics: real)

  /** The classification and risk of an APT OPSEC score; both bounds are strict. */
  function OpsecBand(score: real): (band: (string, Risk))
    ensures score > 0.7 <==> band == ("APT-level", Critical)
    ensures 0.4 < score <= 0.7 <==> band == ("Sophisticated", High)
    ensures score <= 0.4 <==> band == ("Basic", Medium)
  {
    if score > 0.7 then ("APT-level", Critical)
    else if score > 0.4 then ("Sophisticated", High)
    else ("Basic", Medium)
  }

  /**
   * `calculate_apt_opsec_score`: the score is the product of the four metrics
   * (0.5 each when missing), the components echo the metrics used, and the
   * bands are strict: above 0.7 is APT-level, above 0.4 sophisticated.
   */
  function CalculateAptOpsecScore(m: Metrics): (r: AptOpsecScore)
    ensures r.infrastructureTurnover == Get(m.infrastructureTurnover, 0.5)
    ensures r.toolCompartmentalization == Get(m.toolCompartmentalization, 0.5)
    ensures r.timingDiscipline == Get(m.timingDiscipline, 0.5)
    ensures r.antiForensics == Get(m.antiForensics, 0.5)
    ensures r.aptOpsecScore == r.infrastructureTurnover * r.toolCompartmentalization * r.timingDiscipline * r.antiForensics
    ensures (r.classification, r.risk) == OpsecBand(r.aptOpsecScore)
  {
    var infra := Get(m.infrastructureTurnover, 0.5);
    var tools := Get(m.toolCompartmentalization, 0.5);
    var timing := Get(m.timingDiscipline, 0.5);
    var forensics := Get(m.antiForensics, 0.5);
    var score := infra * tools * timing * forensics;
    var band := OpsecBand(score);
    AptOpsecScore(score, band.0, band.1, infra, tools, timing, forensics)
  }

  /** With every metric missing the score is 0.5^4 = 0.0625, which is basic. */
  lemma DefaultMetricsAreBasic()
    ensures CalculateAptOpsecScore(Metrics(None, None, None, None)).aptOpsecScore == 0.0625
    ensures CalculateAptOpsecScore(Metrics(None, None, None, None)).classification == "Basic"
  {
  }

  /** A metric, when given, lies in [0, 1]. */
  predicate InUnit(o: Option<real>)
  {
    o.Some? ==> 0.0 <= o.value <= 1.0
  }

  /** A product of four values in [0, 1] lies in [0, 1]. */
  lemma ProductOfUnits(a: real, b: real, c: real, d: real, p: real)
    requires 0.0 <= a <= 1.0 && 0.0 <= b <= 1.0 && 0.0 <= c <= 1.0 && 0.0 <= d <= 1.0
    requires p == a * b * c * d
    ensures 0.0 <= p <= 1.0
  {
    ScaleBounds(a, b);
    ScaleBounds(c, a * b);
    ScaleBounds(d, a * b * c);
  }

  /** With metrics in [0, 1] the score lies in [0, 1]. */
  lemma ScoreInUnit(m: Metrics)
    requires InUnit(m.infrastructureTurnover) && InUnit(m.toolCompartmentalization)
    requires InUnit(m.timingDiscipline) && InUnit(m.antiForensics)
    ensures 0.0 <= CalculateAptOpsecScore(m).aptOpsecScore <= 1.0
  {
    var r := CalculateAptOpsecScore(m);
    var a, b, c, d := r.infrastructureTurnover, r.toolCompartmentalization, r.timingDiscipline, r.antiForensics;
    assert 0.0 <= a <= 1.0 && 0.0 <= b <= 1.0 && 0.0 <= c <= 1.0 && 0.0 <= d <= 1.0;
    ProductOfUnits(a, b, c, d, r.aptOpsecScore);
  }
}
