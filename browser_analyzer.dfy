/**
 * The browser analyzer: WebRTC address leaks, canvas fingerprints and font
 * enumeration.
 */
module BrowserAnalyzer {
  import opened Common

  datatype WebrtcResult =
    | Leak(vpnIp: string, realIp: string, visibility: real, retention: real, correlation: real,
           attributionWeight: real, risk: Risk, mitigation: string)
    | NoLeak(attributionWeight: real)

  /**
   * `check_webrtc_leak`: the real address leaks exactly when it is given,
   * non-empty and different from the VPN address; a leak echoes both
   * addresses and weighs 0.90, CRITICAL, and anything else is just
   * `leaked = False` with weight 0.0.
   */
  function CheckWebrtcLeak(vpnIp: string, realIp: Option<string> := None): (r: WebrtcResult)
    ensures r.Leak? <==> realIp.Some? && realIp.value != "" && realIp.value != vpnIp
    ensures r.Leak? ==> r.vpnIp == vpnIp && r.realIp == realIp.value && r.attributionWeight == 0.90 && r.risk == Critical
    ensures r.NoLeak? ==> r == NoLeak(0.0)
  {
    if realIp.Some? && realIp.value != "" && realIp.value != vpnIp then
      Leak(vpnIp, realIp.value, 1.0, 0.9, 1.0, 0.90, Critical, "Disable WebRTC: media.peerconnection.enabled=false")
    else NoLeak(0.0)
  }

  /** Seeing the VPN address itself, or no address, is never a leak. */
  lemma SameAddressNeverLeaks(vpnIp: string)
    ensures CheckWebrtcLeak(vpnIp, Some(vpnIp)).NoLeak?
    ensures CheckWebrtcLeak(vpnIp).NoLeak?
  {
  }

  /** The leak weight is visibility times retention times correlation. */
  lemma LeakWeightIsProduct(vpnIp: string, realIp: Option<string>)
    requires CheckWebrtcLeak(vpnIp, realIp).Leak?
    ensures var r := CheckWebrtcLeak(vpnIp, realIp); r.attributionWeight == r.visibility * r.retention * r.correlation
  {
  }

  datatype CanvasResult = CanvasResult(canvasHash: string, uniqueness: real, visibility: real, retention: real,
                                       correlation: real, attributionWeight: real, risk: Risk, mitigation: string)

  /** `analyze_canvas_fingerprint`: the same assessment (0.76, HIGH) for every hash, which it echoes. */
  function AnalyzeCanvasFingerprint(canvasHash: string): (r: CanvasResult)
    ensures r.canvasHash == canvasHash
    ensures r.uniqueness == 0.999 && r.attributionWeight == 0.76 && r.risk == High
  {
    CanvasResult(canvasHash, 0.999, 1.0, 0.8, 0.95, 0.76, High, "Use Tor Browser with resistFingerprinting=true")
  }

  /** Apart from the echoed hash, every canvas gets the same assessment. */
  lemma CanvasIgnoresHash(h1: string, h2: string)
    ensures AnalyzeCanvasFingerprint(h1) == AnalyzeCanvasFingerprint(h2).(canvasHash := h1)
  {
  }

  /** The canvas weight is visibility times retention times correlation. */
  lemma CanvasWeightIsProduct(h: string)
    ensures var r := AnalyzeCanvasFingerprint(h); r.attributionWeight == r.visibility * r.retention * r.correlation
  {
  }

  const CommonFonts: set<string> := {"Arial", "Times", "Courier"}

  datatype FontResult = FontResult(totalFonts: nat, uniqueFonts: nat, attributionWeight: real, risk: Risk, mitigation: string)

  /**
   * `check_font_enumeration`: the fonts other than Arial, Times and Courier,
   * counted with repetition, so never more than the whole list; more than 10
   * is HIGH (0.7), more than 5 MEDIUM (0.5), else LOW (0.3).
   */
  function CheckFontEnumeration(fonts: seq<string>): (r: FontResult)
    ensures r.totalFonts == |fonts|
    ensures r.uniqueFonts == CountNotIn(fonts, CommonFonts)
    ensures r.uniqueFonts <= r.totalFonts
    ensures r.uniqueFonts + CountIn(fonts, CommonFonts) == r.totalFonts
    ensures r.uniqueFonts > 10 <==> (r.attributionWeight, r.risk) == (0.7, High)
    ensures 5 < r.uniqueFonts <= 10 <==> (r.attributionWeight, r.risk) == (0.5, Medium)
    ensures r.uniqueFonts <= 5 <==> (r.attributionWeight, r.risk) == (0.3, Low)
  {
    var uniqueFonts := CountNotIn(fonts, CommonFonts);
    var mitigation := "Use only system default fonts";
    if uniqueFonts > 10 then FontResult(|fonts|, uniqueFonts, 0.7, High, mitigation)
    else if uniqueFonts > 5 then FontResult(|fonts|, uniqueFonts, 0.5, Medium, mitigation)
    else FontResult(|fonts|, uniqueFonts, 0.3, Low, mitigation)
  }

  /** Only the uncommon fonts count: adding a common one changes nothing but the total. */
  lemma {:induction false} CommonFontsDoNotCount(fonts: seq<string>, f: string)
    requires f in CommonFonts
    ensures CheckFontEnumeration(fonts + [f]).uniqueFonts == CheckFontEnumeration(fonts).uniqueFonts
  {
    assert (fonts + [f])[..|fonts + [f]| - 1] == fonts;
  }
}
