/**
 * The kernel-adjacent syscall analyzer: it recognises known applications by
 * the order of their system calls, flags rare or file-heavy call mixes that
 * may hide a covert channel, and weighs accesses to sensitive file paths.
 */
module SyscallAnalyzer {
  import opened Common

  // ---------------------------------------------------------------------------
  // Subsequences
  // ---------------------------------------------------------------------------

  /** `idx` places the elements of `p`, in order, at strictly increasing positions of `s`. */
  ghost predicate Embeds<T>(idx: seq<int>, p: seq<T>, s: seq<T>)
  {
    && |idx| == |p|
    && (forall k :: 0 <= k < |idx| ==> 0 <= idx[k] < |s| && s[idx[k]] == p[k])
    && (forall k, l :: 0 <= k < l < |idx| ==> idx[k] < idx[l])
  }

  /** `p` can be obtained from `s` by deleting elements. */
  ghost predicate IsSubsequence<T>(p: seq<T>, s: seq<T>)
  {
    exists idx :: Embeds(idx, p, s)
  }

  /** A non-empty pattern needs a non-empty sequence to embed in. */
  lemma SubsequenceNeedsElements<T>(p: seq<T>, s: seq<T>)
    requires p != []
    ensures IsSubsequence(p, s) ==> s != []
  {
    if IsSubsequence(p, s) {
      var idx :| Embeds(idx, p, s);
      assert 0 <= idx[0] < |s|;
    }
  }

  /** Every element of a subsequence occurs in the sequence. */
  lemma SubsequenceElements<T>(p: seq<T>, s: seq<T>)
    requires IsSubsequence(p, s)
    ensures forall k :: 0 <= k < |p| ==> p[k] in s
  {
    var idx :| Embeds(idx, p, s);
    forall k | 0 <= k < |p| ensures p[k] in s {
      assert s[idx[k]] == p[k];
    }
  }

  /** A prefix of a subsequence is a subsequence. */
  lemma SubsequencePrefix<T>(p: seq<T>, s: seq<T>, n: nat)
    requires n <= |p|
    ensures IsSubsequence(p, s) ==> IsSubsequence(p[..n], s)
  {
    if IsSubsequence(p, s) {
      var idx :| Embeds(idx, p, s);
      assert Embeds(idx[..n], p[..n], s);
    }
  }

  /** An element of `s` that differs from `p[m]` cannot be where `p[m]` is placed. */
  lemma MismatchSkips<T>(p: seq<T>, s: seq<T>, m: nat, i: nat)
    requires m < |p| && i < |s| && s[i] != p[m]
    ensures IsSubsequence(p[..m + 1], s[..i + 1]) ==> IsSubsequence(p[..m + 1], s[..i])
  {
    if IsSubsequence(p[..m + 1], s[..i + 1]) {
      var idx :| Embeds(idx, p[..m + 1], s[..i + 1]);
      assert idx[m] != i by {
        assert s[..i + 1][idx[m]] == p[m];
      }
      forall k | 0 <= k < |idx| ensures idx[k] < i {
        assert k == m || idx[k] < idx[m];
      }
      assert Embeds(idx, p[..m + 1], s[..i]);
    }
  }

  /** Placing `p[..m + 2]` in `s[..i + 1]` places `p[..m + 1]` before position `i`. */
  lemma LongerPrefixNeedsEarlier<T>(p: seq<T>, s: seq<T>, m: nat, i: nat)
    requires m + 1 < |p| && i < |s|
    ensures IsSubsequence(p[..m + 2], s[..i + 1]) ==> IsSubsequence(p[..m + 1], s[..i])
  {
    if IsSubsequence(p[..m + 2], s[..i + 1]) {
      var idx :| Embeds(idx, p[..m + 2], s[..i + 1]);
      var jdx := idx[..m + 1];
      forall k | 0 <= k < |jdx| ensures jdx[k] < i {
        assert idx[k] < idx[m + 1] < i + 1;
      }
      assert Embeds(jdx, p[..m + 1], s[..i]);
    }
  }

  /**
   * `_contains_subsequence`: the greedy scan that advances through the pattern
   * whenever the current element matches. It answers exactly whether the
   * pattern is a subsequence; the empty pattern always is.
   */
  method ContainsSubsequence<T(==)>(sequence: seq<T>, pattern: seq<T>) returns (found: bool)
    ensures found <==> IsSubsequence(pattern, sequence)
    ensures pattern == [] ==> found
    ensures pattern != [] && sequence == [] ==> !found
  {
    if pattern == [] {
      assert Embeds([], pattern, sequence);
      return true;
    }
    if sequence == [] {
      SubsequenceNeedsElements(pattern, sequence);
      return false;
    }
    var patternIdx := 0;
    ghost var placed: seq<int> := [];
    SubsequenceNeedsElements(pattern[..1], sequence[..0]);
    for i := 0 to |sequence|
      invariant 0 <= patternIdx < |pattern|
      invariant Embeds(placed, pattern[..patternIdx], sequence[..i])
      invariant !IsSubsequence(pattern[..patternIdx + 1], sequence[..i])
    {
      if sequence[i] == pattern[patternIdx] {
        assert Embeds(placed + [i], pattern[..patternIdx + 1], sequence[..i + 1]);
        placed := placed + [i];
        if patternIdx + 1 == |pattern| {
          assert pattern[..patternIdx + 1] == pattern;
          assert Embeds(placed, pattern, sequence);
          return true;
        }
        LongerPrefixNeedsEarlier(pattern, sequence, patternIdx, i);
        patternIdx := patternIdx + 1;
      } else {
        MismatchSkips(pattern, sequence, patternIdx, i);
        assert Embeds(placed, pattern[..patternIdx], sequence[..i + 1]);
      }
    }
    assert sequence[..|sequence|] == sequence;
    SubsequencePrefix(pattern, sequence, patternIdx + 1);
    found := false;
  }

  // ---------------------------------------------------------------------------
  // Pattern confidence
  // ---------------------------------------------------------------------------

  /** `sum(1 for p in pattern if p in sequence)`: duplicates in the pattern count each time. */
  function CountPresent<T(==)>(pattern: seq<T>, sequence: seq<T>): (n: nat)
    ensures n <= |pattern|
    ensures n == |pattern| <==> forall k :: 0 <= k < |pattern| ==> pattern[k] in sequence
  {
    if pattern == [] then 0
    else CountPresent(pattern[..|pattern| - 1], sequence) + (if pattern[|pattern| - 1] in sequence then 1 else 0)
  }

  /**
   * `_calculate_pattern_confidence`: the share of pattern elements present in
   * the sequence, raised by 0.20 (capped at 1.0) when the whole pattern occurs
   * in order; 0.0 for an empty pattern. It always lies in [0, 1].
   */
  ghost function Confidence<T>(sequence: seq<T>, pattern: seq<T>): (c: real)
    ensures pattern == [] ==> c == 0.0
    ensures 0.0 <= c <= 1.0
  {
    if pattern == [] then 0.0
    else
      var n := CountPresent(pattern, sequence);
      RatioInUnit(n, |pattern|);
      var share := (n as real) / (|pattern| as real);
      if IsSubsequence(pattern, sequence) then Min(share + 0.20, 1.0) else share
  }

  /** A pattern that occurs in order gets full confidence. */
  lemma SubsequenceHasFullConfidence<T>(sequence: seq<T>, pattern: seq<T>)
    requires pattern != [] && IsSubsequence(pattern, sequence)
    ensures Confidence(sequence, pattern) == 1.0
  {
    SubsequenceElements(pattern, sequence);
    assert CountPresent(pattern, sequence) == |pattern|;
  }

  method PatternConfidence<T(==)>(sequence: seq<T>, pattern: seq<T>) returns (confidence: real)
    ensures confidence == Confidence(sequence, pattern)
    ensures 0.0 <= confidence <= 1.0
  {
    if pattern == [] {
      return 0.0;
    }
    var matches := CountPresent(pattern, sequence);
    RatioInUnit(matches, |pattern|);
    confidence := (matches as real) / (|pattern| as real);
    var inOrder := ContainsSubsequence(sequence, pattern);
    if inOrder {
      confidence := Min(confidence + 0.20, 1.0);
    }
  }

  // ---------------------------------------------------------------------------
  // Sequence fingerprinting
  // ---------------------------------------------------------------------------

  type Syscall = string

  /** `KNOWN_PATTERNS`, in the dictionary's order. */
  const KnownPatterns: seq<(string, seq<Syscall>)> := [
    ("tor", ["socket", "connect", "poll", "recvfrom", "sendto", "close"]),
    ("ssh", ["socket", "connect", "read", "write", "select", "close"]),
    ("vpn_openvpn", ["socket", "bind", "setsockopt", "sendto", "recvfrom"]),
    ("browser_firefox", ["open", "read", "write", "mmap", "munmap", "close", "socket"]),
    ("bitcoin_core", ["open", "lseek", "read", "write", "fsync", "close"])
  ]

  /** The table names five different applications, and every pattern is non-empty, so an application matches only on calls it makes. */
  lemma KnownPatternsTable()
    ensures |KnownPatterns| == 5
    ensures forall i, j :: 0 <= i < j < |KnownPatterns| ==> KnownPatterns[i].0 != KnownPatterns[j].0
    ensures forall k :: 0 <= k < |KnownPatterns| ==> KnownPatterns[k].1 != []
  {
  }

  /** The `pattern_matches` dictionary, in insertion order: each pattern that occurs in order, with its confidence. */
  ghost function MatchesOf(pats: seq<(string, seq<Syscall>)>, syscalls: seq<Syscall>): (m: seq<(string, real)>)
    ensures |m| <= |pats|
  {
    if pats == [] then []
    else
      var last := pats[|pats| - 1];
      MatchesOf(pats[..|pats| - 1], syscalls)
        + (if IsSubsequence(last.1, syscalls) then [(last.0, Confidence(syscalls, last.1))] else [])
  }

  /** The applications whose pattern occurs in order. */
  ghost function MatchedApps(pats: seq<(string, seq<Syscall>)>, syscalls: seq<Syscall>): set<string>
  {
    set j | 0 <= j < |pats| && IsSubsequence(pats[j].1, syscalls) :: pats[j].0
  }

  /** The keys of a match list. */
  function Apps(m: seq<(string, real)>): set<string>
  {
    set k | 0 <= k < |m| :: m[k].0
  }

  /** The keys of two match lists put together are the keys of each. */
  lemma AppsAppend(m: seq<(string, real)>, here: seq<(string, real)>)
    ensures Apps(m + here) == Apps(m) + Apps(here)
  {
    forall a | a in Apps(m + here) ensures a in Apps(m) + Apps(here) {
      var k :| 0 <= k < |m + here| && (m + here)[k].0 == a;
      if k >= |m| {
        assert here[k - |m|].0 == a;
      }
    }
    forall a | a in Apps(m) + Apps(here) ensures a in Apps(m + here) {
      if a in Apps(m) {
        var k :| 0 <= k < |m| && m[k].0 == a;
        assert (m + here)[k].0 == a;
      } else {
        var k :| 0 <= k < |here| && here[k].0 == a;
        assert (m + here)[|m| + k].0 == a;
      }
    }
  }

  /** One more known pattern adds its application exactly when it occurs. */
  lemma MatchedAppsStep(pats: seq<(string, seq<Syscall>)>, syscalls: seq<Syscall>)
    requires pats != []
    ensures MatchedApps(pats, syscalls)
         == MatchedApps(pats[..|pats| - 1], syscalls)
            + (if IsSubsequence(pats[|pats| - 1].1, syscalls) then {pats[|pats| - 1].0} else {})
  {
    var front, last := pats[..|pats| - 1], pats[|pats| - 1];
    forall a | a in MatchedApps(pats, syscalls)
      ensures a in MatchedApps(front, syscalls) + (if IsSubsequence(last.1, syscalls) then {last.0} else {})
    {
      var j :| 0 <= j < |pats| && IsSubsequence(pats[j].1, syscalls) && pats[j].0 == a;
      if j < |front| {
        assert front[j] == pats[j];
      }
    }
    forall a | a in MatchedApps(front, syscalls) ensures a in MatchedApps(pats, syscalls) {
      var j :| 0 <= j < |front| && IsSubsequence(front[j].1, syscalls) && front[j].0 == a;
      assert pats[j] == front[j];
    }
  }

  /** The match list names exactly the applications whose pattern occurs, each with confidence 1.0. */
  lemma {:induction false} MatchesOfExact(pats: seq<(string, seq<Syscall>)>, syscalls: seq<Syscall>)
    requires forall j :: 0 <= j < |pats| ==> pats[j].1 != []
    ensures Apps(MatchesOf(pats, syscalls)) == MatchedApps(pats, syscalls)
    ensures forall k :: 0 <= k < |MatchesOf(pats, syscalls)| ==> MatchesOf(pats, syscalls)[k].1 == 1.0
    decreases |pats|
  {
    if pats != [] {
      var front, last := pats[..|pats| - 1], pats[|pats| - 1];
      MatchesOfExact(front, syscalls);
      var found := IsSubsequence(last.1, syscalls);
      var here := if found then [(last.0, Confidence(syscalls, last.1))] else [];
      var m := MatchesOf(front, syscalls);
      assert MatchesOf(pats, syscalls) == m + here;
      if found {
        SubsequenceHasFullConfidence(syscalls, last.1);
      }
      AppsAppend(m, here);
      MatchedAppsStep(pats, syscalls);
      assert Apps(here) == (if found then {last.0} else {}) by {
        if found {
          assert here[0].0 == last.0;
        }
      }
      forall k | 0 <= k < |m + here| ensures (m + here)[k].1 == 1.0 {
        if k >= |m| {
          assert (m + here)[k] == here[k - |m|];
        }
      }
    }
  }

  /** The result of `analyze_syscall_sequence`. */
  datatype SequenceAnalysis = SequenceAnalysis(
    totalSyscalls: nat,
    uniqueSyscalls: nat,
    patternMatches: seq<(string, real)>,
    entropy: real,
    attributionWeight: real)

  /** `max` over the confidences of a non-empty match list. */
  function MaxConfidence(m: seq<(string, real)>): (r: real)
    requires m != []
    ensures exists k :: 0 <= k < |m| && m[k].1 == r
    ensures forall k :: 0 <= k < |m| ==> m[k].1 <= r
  {
    if |m| == 1 then m[0].1
    else
      var front := MaxConfidence(m[..|m| - 1]);
      assert forall k :: 0 <= k < |m| - 1 ==> m[..|m| - 1][k] == m[k];
      if m[|m| - 1].1 >= front then m[|m| - 1].1 else front
  }

  /**
   * `analyze_syscall_sequence`. The entropy of the call distribution is an
   * input: it is recorded for a non-empty sequence and is 0.0 for an empty one.
   * The matches are exactly the known applications whose pattern occurs in
   * order, each with confidence 1.0; the weight is then the mean of 1.0 and
   * the entropy factor, and 0.0 when nothing matches.
   */
  method AnalyzeSyscallSequence(syscalls: seq<Syscall>, entropy: real) returns (r: SequenceAnalysis)
    ensures r.totalSyscalls == |syscalls|
    ensures r.uniqueSyscalls == |set s | s in syscalls|
    ensures r.entropy == (if syscalls == [] then 0.0 else entropy)
    ensures r.patternMatches == MatchesOf(KnownPatterns, syscalls)
    ensures Apps(r.patternMatches) == MatchedApps(KnownPatterns, syscalls)
    ensures forall k :: 0 <= k < |r.patternMatches| ==> r.patternMatches[k].1 == 1.0
    ensures r.patternMatches == [] ==> r.attributionWeight == 0.0
    ensures r.patternMatches != [] ==> r.attributionWeight == (1.0 + (1.0 - Min(r.entropy / 10.0, 1.0))) / 2.0
    ensures r.patternMatches != [] && r.entropy >= 0.0 ==> 0.5 <= r.attributionWeight <= 1.0
  {
    var e := if syscalls == [] then 0.0 else entropy;
    var matches: seq<(string, real)> := [];
    for j := 0 to |KnownPatterns|
      invariant matches == MatchesOf(KnownPatterns[..j], syscalls)
    {
      var app, pattern := KnownPatterns[j].0, KnownPatterns[j].1;
      var inOrder := ContainsSubsequence(syscalls, pattern);
      if inOrder {
        var confidence := PatternConfidence(syscalls, pattern);
        matches := matches + [(app, confidence)];
      }
      assert KnownPatterns[..j + 1][..j] == KnownPatterns[..j];
    }
    assert KnownPatterns[..|KnownPatterns|] == KnownPatterns;
    MatchesOfExact(KnownPatterns, syscalls);
    var weight := 0.0;
    if matches != [] {
      var maxConfidence := MaxConfidence(matches);
      var entropyFactor := 1.0 - Min(e / 10.0, 1.0);
      weight := (maxConfidence + entropyFactor) / 2.0;
    }
    r := SequenceAnalysis(|syscalls|, |set s | s in syscalls|, matches, e, weight);
  }

  // ---------------------------------------------------------------------------
  // Covert channels
  // ---------------------------------------------------------------------------

  const FileSyscalls: set<Syscall> := {"open", "read", "write", "lseek", "close"}
  const RareSyscalls: set<Syscall> := {"ptrace", "process_vm_readv", "process_vm_writev", "perf_event_open", "bpf"}

  /** The findings `detect_covert_channel` can report; `RareCalls(n)` is the message naming `n` rare calls. */
  datatype Suspicion = ExcessiveFileIo | RareCalls(count: nat)

  datatype CovertAnalysis = CovertAnalysis(
    suspiciousPatterns: seq<Suspicion>,
    covertChannelLikely: bool,
    attributionWeight: real)

  /** More than 70% of the calls are file I/O (`file_io_count > len(syscalls) * 0.7`). */
  predicate ExcessiveFileShare(syscalls: seq<Syscall>)
  {
    (CountIn(syscalls, FileSyscalls) as real) > (|syscalls| as real) * 0.7
  }

  /**
   * `detect_covert_channel`: file I/O above 70% of the calls and any rare call
   * are each reported once, in that order; a rare call sets the weight to
   * 0.70; the channel is called likely when at least `threshold` findings
   * were made, which the default threshold of 10 never is.
   */
  method DetectCovertChannel(syscalls: seq<Syscall>, threshold: int := 10) returns (r: CovertAnalysis)
    ensures ExcessiveFileIo in r.suspiciousPatterns <==> ExcessiveFileShare(syscalls)
    ensures (exists n :: RareCalls(n) in r.suspiciousPatterns) <==> CountIn(syscalls, RareSyscalls) > 0
    ensures forall n :: RareCalls(n) in r.suspiciousPatterns ==> n == CountIn(syscalls, RareSyscalls)
    ensures r.suspiciousPatterns
              == (if ExcessiveFileShare(syscalls) then [ExcessiveFileIo] else [])
                 + (if CountIn(syscalls, RareSyscalls) > 0 then [RareCalls(CountIn(syscalls, RareSyscalls))] else [])
    ensures |r.suspiciousPatterns| <= 2
    ensures 0 < |r.suspiciousPatterns| && ExcessiveFileIo in r.suspiciousPatterns ==> r.suspiciousPatterns[0] == ExcessiveFileIo
    ensures r.attributionWeight == (if CountIn(syscalls, RareSyscalls) > 0 then 0.70 else 0.0)
    ensures r.covertChannelLikely <==>
              (if ExcessiveFileShare(syscalls) then 1 else 0) + (if CountIn(syscalls, RareSyscalls) > 0 then 1 else 0) >= threshold
    ensures threshold > 2 ==> !r.covertChannelLikely
  {
    var patterns: seq<Suspicion> := [];
    var weight := 0.0;
    if ExcessiveFileShare(syscalls) {
      patterns := patterns + [ExcessiveFileIo];
    }
    var rareCount := CountIn(syscalls, RareSyscalls);
    if rareCount > 0 {
      patterns := patterns + [RareCalls(rareCount)];
      weight := 0.70;
    }
    r := CovertAnalysis(patterns, |patterns| >= threshold, weight);
  }

  // ---------------------------------------------------------------------------
  // Sensitive file paths
  // ---------------------------------------------------------------------------

  /**
   * The regular expressions of `analyze_file_access_patterns`, grouped by
   * application in the dictionary's order. Matching a pattern against a path
   * (`re.search`) is a parameter of the model.
   */
  const SensitivePatterns: seq<(string, seq<string>)> := [
    ("tor", ["/\\.tor/", "/torrc$", "/state$"]),
    ("vpn", ["/\\.openvpn/", "\\.ovpn$", "/vpnc/"]),
    ("cryptocurrency", ["/\\.bitcoin/", "wallet\\.dat$", "/\\.monero/"]),
    ("encryption", ["\\.gpg$", "/\\.gnupg/", "\\.asc$"])
  ]

  /** `[path for path in file_paths if re.search(pattern, path)]`. */
  function PathsMatching(paths: seq<string>, pattern: string, search: (string, string) -> bool): (r: seq<string>)
    ensures forall k :: 0 <= k < |r| ==> search(pattern, r[k])
    ensures forall x :: multiset(r)[x] == if search(pattern, x) then multiset(paths)[x] else 0
  {
    if paths == [] then []
    else
      var front := paths[..|paths| - 1];
      var last := paths[|paths| - 1];
      assert paths == front + [last];
      PathsMatching(front, pattern, search) + (if search(pattern, last) then [last] else [])
  }

  /** Every (application, pattern) pair, in the order the nested loops visit them. */
  function Pairs(app: string, pats: seq<string>): (r: seq<(string, string)>)
    ensures |r| == |pats|
    ensures forall k :: 0 <= k < |r| ==> r[k] == (app, pats[k])
  {
    if pats == [] then [] else Pairs(app, pats[..|pats| - 1]) + [(app, pats[|pats| - 1])]
  }

  function Flatten(groups: seq<(string, seq<string>)>): seq<(string, string)>
  {
    if groups == [] then []
    else Flatten(groups[..|groups| - 1]) + Pairs(groups[|groups| - 1].0, groups[|groups| - 1].1)
  }

  /** `sensitive_paths_detected` after visiting `pairs`: each pattern's matching paths, pattern after pattern. */
  ghost function Detected(pairs: seq<(string, string)>, paths: seq<string>, search: (string, string) -> bool): seq<string>
  {
    if pairs == [] then []
    else Detected(pairs[..|pairs| - 1], paths, search) + PathsMatching(paths, pairs[|pairs| - 1].1, search)
  }

  /** `application_hints` after visiting `pairs`: the application once per pattern that matched something. */
  ghost function Hints(pairs: seq<(string, string)>, paths: seq<string>, search: (string, string) -> bool): seq<string>
  {
    if pairs == [] then []
    else
      Hints(pairs[..|pairs| - 1], paths, search)
        + (if PathsMatching(paths, pairs[|pairs| - 1].1, search) != [] then [pairs[|pairs| - 1].0] else [])
  }

  /** The number of patterns among `pairs` that match `x`. */
  ghost function PatternsMatching(pairs: seq<(string, string)>, x: string, search: (string, string) -> bool): nat
  {
    if pairs == [] then 0
    else PatternsMatching(pairs[..|pairs| - 1], x, search) + (if search(pairs[|pairs| - 1].1, x) then 1 else 0)
  }

  lemma CountStep(before: nat, here: nat, m: nat, n: nat, n': nat, matched: bool)
    requires before == m * n
    requires here == (if matched then m else 0)
    requires n' == n + (if matched then 1 else 0)
    ensures before + here == m * n'
  {
  }

  /** A path is listed once for every pattern it matches, as often as it was accessed. */
  lemma {:induction false} DetectedMultiplicity(pairs: seq<(string, string)>, paths: seq<string>, search: (string, string) -> bool, x: string)
    ensures multiset(Detected(pairs, paths, search))[x] == multiset(paths)[x] * PatternsMatching(pairs, x, search)
    decreases |pairs|
  {
    if pairs != [] {
      var front := pairs[..|pairs| - 1];
      var here := PathsMatching(paths, pairs[|pairs| - 1].1, search);
      DetectedMultiplicity(front, paths, search, x);
      var d := Detected(front, paths, search);
      assert Detected(pairs, paths, search) == d + here;
      assert multiset(d + here)[x] == multiset(d)[x] + multiset(here)[x];
      var matched := search(pairs[|pairs| - 1].1, x);
      CountStep(multiset(d)[x], multiset(here)[x], multiset(paths)[x], PatternsMatching(front, x, search),
                PatternsMatching(pairs, x, search), matched);
    }
  }

  /** Each hint stands for at least one detected path. */
  lemma {:induction false} HintsBelowDetected(pairs: seq<(string, string)>, paths: seq<string>, search: (string, string) -> bool)
    ensures |Hints(pairs, paths, search)| <= |Detected(pairs, paths, search)|
    ensures Detected(pairs, paths, search) == [] <==> Hints(pairs, paths, search) == []
    decreases |pairs|
  {
    if pairs != [] {
      HintsBelowDetected(pairs[..|pairs| - 1], paths, search);
    }
  }

  datatype FileAccessAnalysis = FileAccessAnalysis(
    totalFiles: nat,
    uniqueFiles: nat,
    sensitivePathsDetected: seq<string>,
    applicationHints: seq<string>,
    attributionWeight: real)

  lemma AppendPair(done: seq<(string, string)>, app: string, pats: seq<string>, k: nat, paths: seq<string>, search: (string, string) -> bool)
    requires k < |pats|
    ensures Detected(done + Pairs(app, pats[..k + 1]), paths, search)
         == Detected(done + Pairs(app, pats[..k]), paths, search) + PathsMatching(paths, pats[k], search)
    ensures Hints(done + Pairs(app, pats[..k + 1]), paths, search)
         == Hints(done + Pairs(app, pats[..k]), paths, search)
            + (if PathsMatching(paths, pats[k], search) != [] then [app] else [])
  {
    assert pats[..k + 1][..k] == pats[..k];
    var c := done + Pairs(app, pats[..k + 1]);
    assert c[..|c| - 1] == done + Pairs(app, pats[..k]);
    assert c[|c| - 1] == (app, pats[k]);
  }

  /** The inner loop: one application's patterns. */
  method ScanGroup(app: string, pats: seq<string>, paths: seq<string>, search: (string, string) -> bool,
                   done: seq<(string, string)>, detected0: seq<string>, hints0: seq<string>)
    returns (detected: seq<string>, hints: seq<string>)
    requires detected0 == Detected(done, paths, search) && hints0 == Hints(done, paths, search)
    ensures detected == Detected(done + Pairs(app, pats), paths, search)
    ensures hints == Hints(done + Pairs(app, pats), paths, search)
  {
    detected, hints := detected0, hints0;
    assert done + Pairs(app, pats[..0]) == done;
    for k := 0 to |pats|
      invariant detected == Detected(done + Pairs(app, pats[..k]), paths, search)
      invariant hints == Hints(done + Pairs(app, pats[..k]), paths, search)
    {
      var matches := PathsMatching(paths, pats[k], search);
      AppendPair(done, app, pats, k, paths, search);
      if matches != [] {
        detected := detected + matches;
        hints := hints + [app];
      }
    }
    assert pats[..|pats|] == pats;
  }

  /** The outer loop: every application's group of patterns, in order. */
  method ScanGroups(groups: seq<(string, seq<string>)>, paths: seq<string>, search: (string, string) -> bool)
    returns (detected: seq<string>, hints: seq<string>)
    ensures detected == Detected(Flatten(groups), paths, search)
    ensures hints == Hints(Flatten(groups), paths, search)
  {
    detected, hints := [], [];
    for g := 0 to |groups|
      invariant detected == Detected(Flatten(groups[..g]), paths, search)
      invariant hints == Hints(Flatten(groups[..g]), paths, search)
    {
      assert groups[..g + 1][..g] == groups[..g];
      detected, hints := ScanGroup(groups[g].0, groups[g].1, paths, search, Flatten(groups[..g]), detected, hints);
    }
    assert groups[..|groups|] == groups;
  }

  /** The weight for `n` detections among `total` accesses. */
  function FileWeight(n: nat, total: nat): (w: real)
    requires n > 0
    ensures 0.5 <= w <= 0.9
  {
    var ratio := (n as real) / ((if total >= 1 then total else 1) as real);
    assert ratio >= 0.0;
    Min(0.50 + ratio * 0.40, 0.90)
  }

  /**
   * `analyze_file_access_patterns`: every pattern's matching paths are added to
   * the detections (a path once per pattern it matches) with one hint for its
   * application; the weight is 0.5 plus 0.4 times the share of detections,
   * capped at 0.9, and 0.0 when nothing was detected.
   */
  method AnalyzeFileAccessPatterns(filePaths: seq<string>, search: (string, string) -> bool) returns (r: FileAccessAnalysis)
    ensures r.totalFiles == |filePaths| && r.uniqueFiles == |set p | p in filePaths|
    ensures r.sensitivePathsDetected == Detected(Flatten(SensitivePatterns), filePaths, search)
    ensures r.applicationHints == Hints(Flatten(SensitivePatterns), filePaths, search)
    ensures forall x :: multiset(r.sensitivePathsDetected)[x]
                     == multiset(filePaths)[x] * PatternsMatching(Flatten(SensitivePatterns), x, search)
    ensures r.sensitivePathsDetected == [] <==> r.applicationHints == []
    ensures r.sensitivePathsDetected == [] ==> r.attributionWeight == 0.0
    ensures r.sensitivePathsDetected != [] ==>
              r.attributionWeight == FileWeight(|r.sensitivePathsDetected|, |filePaths|) && 0.5 <= r.attributionWeight <= 0.9
  {
    var detected, hints := ScanGroups(SensitivePatterns, filePaths, search);
    forall x ensures multiset(detected)[x] == multiset(filePaths)[x] * PatternsMatching(Flatten(SensitivePatterns), x, search) {
      DetectedMultiplicity(Flatten(SensitivePatterns), filePaths, search, x);
    }
    HintsBelowDetected(Flatten(SensitivePatterns), filePaths, search);
    var weight := 0.0;
    if detected != [] {
      weight := FileWeight(|detected|, |filePaths|);
    }
    r := FileAccessAnalysis(|filePaths|, |set p | p in filePaths|, detected, hints, weight);
  }
}
