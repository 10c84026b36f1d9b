# chanakya-opsec attribution core in Dafny

This project models the scoring core of an OPSEC attribution framework, in which every leaked
signal carries an *attribution weight* in [0, 1] with a risk label.

- **The attribution correlation graph.** Signals are nodes weighted by attribution. Correlations
  between them are directed, weighted edges. The graph enumerates every simple path to a target
  signal and scores it as the source's weight times the product of the edge strengths. It then
  ranks the paths highest first, and reports the high-risk signals and the strong correlations.
- **The scorers of each domain.** Each is a decision table over counts, sets and thresholds:
  - kernel syscall sequences (a greedy subsequence matcher, pattern confidence, file-access and
    covert-channel checks);
  - APT operational discipline, living-off-the-land tools, timing evasion and the APT OPSEC
    product score;
  - OSINT correlation of GitHub commit timing, LinkedIn skills and WHOIS records;
  - forensics (EXIF GPS, MAC times, deleted files);
  - browser fingerprinting (WebRTC leaks, canvas, fonts).

Files:

- `common.dfy`: `Option`, the risk labels and counting helpers.
- `stable_sort.dfy`: Python's stable `list.sort(key=..., reverse=True)` as an insertion sort on sequences.
- `digraph.dfy`: the networkx `DiGraph` as a value: node and edge maps plus insertion order, and
  `all_simple_paths` as a depth-first search.
- `attribution_graph.dfy`: the class `AttributionGraphVisualizer`.
- `syscall_analyzer.dfy`, `apt_analyzer.dfy`, `osint_analyzer.dfy`, `forensics_analyzer.dfy`,
  `browser_analyzer.dfy`: one module per analyzer.

Conventions:

- A dictionary argument becomes a datatype of `Option` fields, where `None` is a missing key;
  a `.get(key, default)` becomes an accessor with the same default.
- A returned dictionary becomes a datatype, with one constructor per shape the source returns.
- Weights are `real`.
- Time stamps are whole seconds, or `(hour, weekday)` pairs where only those are read.
- A regular-expression search is a predicate parameter `search(pattern, path)`.

Where the source works by mutation, the model does too:

- the visualizer is a class whose methods update its graph and its two logs;
- the subsequence matcher, the file-access scan, the GitHub delta loop and the WHOIS set loops
  are loops with invariants;
- the discipline score is accumulated statement by statement.

Each such method is proved against a specification function. The properties are proved about
that function.

## Model

| member | source | states |
|---|---|---|
| AttributionGraph.RiskLevel | visualization/attribution_graph.py:300-311 | CRITICAL iff w ≥ 0.80, HIGH iff 0.60 ≤ w < 0.80, MEDIUM iff 0.40 ≤ w < 0.60, LOW iff 0.20 ≤ w < 0.40, MINIMAL iff w < 0.20: total, every bound inclusive |
| AttributionGraph.RiskLevelMonotone | visualization/attribution_graph.py:300-311 | a heavier weight never gets a milder label |
| AttributionGraph.AttributionGraphVisualizer.constructor | visualization/attribution_graph.py:28-31 | starts with an empty graph and empty `signals`/`correlations` logs |
| AttributionGraph.AttributionGraphVisualizer.AddSignal | visualization/attribution_graph.py:33-60 | the node gets exactly the given layer, weight, description and the label of that weight. Other nodes and all edges are unchanged. The node count grows only for a new id. Exactly one record is appended to `signals`, even on a re-add |
| AttributionGraph.AttributionGraphVisualizer.AddCorrelation | visualization/attribution_graph.py:62-88 | both endpoints become nodes. The ordered pair holds exactly the new strength and description, so the last call wins. Exactly one record is appended to `correlations`. All node labels stay current |
| AttributionGraph.AttributionGraphVisualizer.CalculateAttributionPaths | visualization/attribution_graph.py:203-247 | the result is a stable descending sort, by combined weight, of every simple path into the target from each other node, in node order. Each entry is a simple path with its own score, every such path appears once, and under unit weights no entry exceeds its source's weight. A target that is not a node gives the outcome `NodeNotFound` (`[]` on an empty graph), a deliberate simplification recorded under Left out |
| AttributionGraph.AttributionGraphVisualizer.GenerateReport | visualization/attribution_graph.py:249-296 | the result is the "No graph data" error iff the graph has no node (`if not self.graph`, :251-252). Otherwise the counts are the node and edge counts. The high-risk entries are exactly the nodes with weight > 0.70, and the strong entries exactly the edges with strength > 0.70. Each list is stably sorted highest first. The graph is not modified |
| AttributionGraph.RankPaths | visualization/attribution_graph.py:217-245 | the ranked list is a stable descending sort of the enumerated, scored paths |
| AttributionGraph.RankingFacts | visualization/attribution_graph.py:218-245 | every ranked entry is a simple path to the target with its own score. It starts elsewhere, has at least 2 nodes and hops = nodes − 1. Every simple path to the target is listed, and none twice. The list is empty iff no simple path reaches the target. Under unit weights each weight lies in [0, source weight] |
| AttributionGraph.CombinedStrength | visualization/attribution_graph.py:227-230 | the running `combined_aw *=` loop computes the product of the edge strengths along the path |
| AttributionGraph.Score | visualization/attribution_graph.py:227-241 | the entry of one path keeps the path, has hops = nodes − 1, and a single-node path scores its source's weight |
| AttributionGraph.AttributionPaths | visualization/attribution_graph.py:216-243 | the unsorted list the loop builds holds only simple paths to the target, each with its own score, and no entry twice |
| AttributionGraph.ScoreEach | visualization/attribution_graph.py:225-240 | scores the paths of one source in enumeration order |
| AttributionGraph.ScoreSource | visualization/attribution_graph.py:218-240 | the scored paths of one source are those of `all_simple_paths` |
| AttributionGraph.PathSourceWeight | visualization/attribution_graph.py:233 | a node without attributes counts as 0.5 when a path is scored |
| AttributionGraph.ReportWeight | visualization/attribution_graph.py:269 | a node without attributes counts as 0 in the report |
| AttributionGraph.Strength | visualization/attribution_graph.py:229 | the strength of an existing edge is its stored weight |
| AttributionGraph.SourceWeight | visualization/attribution_graph.py:233 | the weight of a path's first node, by the 0.5 default |
| AttributionGraph.EdgeProductInUnit | visualization/attribution_graph.py:227-230 | with strengths in [0, 1] the product along a path lies in [0, 1] |
| AttributionGraph.PathAttenuates | visualization/attribution_graph.py:227-234 | with unit weights a path's combined weight lies between 0 and its source's weight |
| AttributionGraph.ScoreAllSound | visualization/attribution_graph.py:225-240 | every scored entry is the score of one of the given paths |
| AttributionGraph.ScoreAllComplete | visualization/attribution_graph.py:225-240 | every given path is scored |
| AttributionGraph.ScoreAllDistinct | visualization/attribution_graph.py:225-240 | distinct paths give distinct entries |
| AttributionGraph.FromSourceSound | visualization/attribution_graph.py:224-240 | the entries of one source are simple paths from it to the target |
| AttributionGraph.FromSourceComplete | visualization/attribution_graph.py:224-240 | every simple path from the source to the target is scored |
| AttributionGraph.FromSourceDistinct | visualization/attribution_graph.py:224-240 | no entry of one source repeats |
| AttributionGraph.EnumeratedSound | visualization/attribution_graph.py:218-240 | over all sources, each entry is a simple path from one of them |
| AttributionGraph.EnumeratedComplete | visualization/attribution_graph.py:218-240 | over all sources, every simple path from one of them is listed |
| AttributionGraph.EnumeratedDistinct | visualization/attribution_graph.py:218-240 | over distinct sources no entry repeats |
| AttributionGraph.EnumeratedStep | visualization/attribution_graph.py:218-240 | the loop over sources appends one source's paths at a time |
| AttributionGraph.HighRiskIn | visualization/attribution_graph.py:268-269 | the comprehension keeps at most one entry per node, each with weight > 0.70 |
| AttributionGraph.HighRiskInExact | visualization/attribution_graph.py:268-269 | the high-risk comprehension yields exactly the listed nodes with weight > 0.70 |
| AttributionGraph.HighRiskHasAttributes | visualization/attribution_graph.py:268-276 | a high-risk entry's node has attributes and that weight, strictly above 0.70 |
| AttributionGraph.StrongOut | visualization/attribution_graph.py:285-286 | for one source node, at most one entry per out-edge, each from that node with strength > 0.70 |
| AttributionGraph.StrongIn | visualization/attribution_graph.py:285-286 | over the edges in networkx order, every entry comes from a listed source with strength > 0.70 |
| AttributionGraph.StrongOutExact | visualization/attribution_graph.py:285-286 | for one source, the strong entries are exactly its edges with strength > 0.70 |
| AttributionGraph.StrongInExact | visualization/attribution_graph.py:285-286 | the strong-edge comprehension yields exactly the edges with strength > 0.70 |
| AttributionGraph.AddEdgeKeepsLabels | visualization/attribution_graph.py:76-81 | an edge's attribute-less endpoints do not break the node labels |
| AttributionGraph.GraphTruthy | visualization/attribution_graph.py:44 | the truth value `not self.graph` tests: a networkx graph is true iff it has a node |
| AttributionGraph.FalsyIsEmpty | visualization/attribution_graph.py:44-45 | a well-formed graph is falsy exactly when it is the empty `nx.DiGraph()` |
| AttributionGraph.ApplyAsWritten | visualization/attribution_graph.py:44-45 | with the guard as written, a graph without nodes is left unchanged |
| AttributionGraph.RunAsWritten | visualization/attribution_graph.py:44-45 | with the guard as written at :44 and :73, a run of calls leaves a falsy graph unchanged and keeps a truthy graph truthy |
| AttributionGraph.AsWrittenGraphStaysEmpty | visualization/attribution_graph.py:44-45 | with the guard as written, a fresh graph stays empty whatever is added |
| DiGraph.EmptyGraph | visualization/attribution_graph.py:29 | a new graph has no nodes and no edges |
| DiGraph.AddNode | visualization/attribution_graph.py:47-53 | `add_node` sets the id's attributes and keeps the edges. It adds a node only for a new id, and a new id goes to the end of the node order while an existing one keeps its place |
| DiGraph.AddNodeLastWins | visualization/attribution_graph.py:47-53 | re-adding an id leaves only the last attributes |
| DiGraph.EnsureNode | visualization/attribution_graph.py:76-81 | a missing endpoint becomes a node without attributes, and existing nodes are unchanged |
| DiGraph.AddEdge | visualization/attribution_graph.py:76-81 | `add_edge` overwrites the pair's attributes and adds both endpoints. It adds an edge only for a new pair |
| DiGraph.PutEdge | visualization/attribution_graph.py:76-81 | a new pair is appended to the edge order, and an existing one keeps its place |
| DiGraph.Targets | visualization/attribution_graph.py:224 | a node's successors are exactly the targets of its edges, without repetition |
| DiGraph.Successors | visualization/attribution_graph.py:224 | the successors are exactly the edge targets. They are nodes and distinct |
| DiGraph.WalkExtend | visualization/attribution_graph.py:224 | extending a walk along an edge gives a walk |
| DiGraph.WalkPrefix | visualization/attribution_graph.py:224 | a prefix of a walk is a walk |
| DiGraph.DfsSound | visualization/attribution_graph.py:224 | each path the search yields is a simple path to the target extending the current one |
| DiGraph.DfsComplete | visualization/attribution_graph.py:224 | every simple path to the target through the current prefix is yielded |
| DiGraph.DistinctConcat | visualization/attribution_graph.py:224 | joining disjoint repetition-free lists gives a repetition-free list |
| DiGraph.DfsBranchShape | visualization/attribution_graph.py:224 | the paths found down one successor pass through it next |
| DiGraph.DfsDistinct | visualization/attribution_graph.py:224 | the search yields no path twice |
| DiGraph.AllSimplePaths | visualization/attribution_graph.py:224 | exactly the simple paths from source to target, each once |
| DiGraph.PathEntersTarget | visualization/attribution_graph.py:224 | a simple path ends with an edge into the target |
| StableSort.WithKey | visualization/attribution_graph.py:245 | the elements with one key, in order, are no more than the list |
| StableSort.WithKeyAppend | visualization/attribution_graph.py:245 | selecting one key distributes over concatenation |
| StableSort.WithKeyNone | visualization/attribution_graph.py:245 | a key that no element has selects nothing |
| StableSort.InsertKeepsClasses | visualization/attribution_graph.py:245 | inserting after all the heavier-or-equal elements keeps each key's relative order |
| StableSort.InsertDesc | visualization/attribution_graph.py:245 | insertion into a descending list keeps it descending and stable |
| StableSort.SortDesc | visualization/attribution_graph.py:245 | `sort(key, reverse=True)`: a descending, stable permutation of the input |
| Common.CountIn | framework/kernel/syscall_analyzer.py:192-204 | the `sum(1 for s in xs if s in set)` count is at most the length, and 0 iff no element is in the set |
| Common.CountNotIn | framework/browser/analyzer.py:58 | the count of elements outside a set, complementary to `CountIn` |
| Common.DistinctAtMostOnce | visualization/attribution_graph.py:218-245 | a repetition-free list holds each element once |
| Common.DistinctPermutation | visualization/attribution_graph.py:245 | a permutation of a repetition-free list is repetition-free |
| SyscallAnalyzer.ContainsSubsequence | framework/kernel/syscall_analyzer.py:216-230 | the greedy matcher returns true iff the pattern occurs in order, not necessarily contiguously. An empty pattern gives true, and a non-empty pattern against an empty sequence gives false |
| SyscallAnalyzer.SubsequenceNeedsElements | framework/kernel/syscall_analyzer.py:220-221 | a non-empty pattern is never a subsequence of an empty sequence |
| SyscallAnalyzer.SubsequenceElements | framework/kernel/syscall_analyzer.py:238-243 | every element of a subsequence occurs in the sequence |
| SyscallAnalyzer.SubsequencePrefix | framework/kernel/syscall_analyzer.py:224-230 | a prefix of a subsequence is a subsequence |
| SyscallAnalyzer.MismatchSkips | framework/kernel/syscall_analyzer.py:226 | an item that does not match the next pattern element cannot be needed for it |
| SyscallAnalyzer.LongerPrefixNeedsEarlier | framework/kernel/syscall_analyzer.py:224-229 | matching one more pattern element needs the shorter prefix strictly earlier, which makes greedy matching optimal |
| SyscallAnalyzer.CountPresent | framework/kernel/syscall_analyzer.py:238 | the matches are at most the pattern length, and equal to it iff every element occurs |
| SyscallAnalyzer.Confidence | framework/kernel/syscall_analyzer.py:232-245 | 0.0 for an empty pattern, and always in [0, 1] |
| SyscallAnalyzer.SubsequenceHasFullConfidence | framework/kernel/syscall_analyzer.py:238-243 | a pattern that is a subsequence has confidence exactly 1.0 |
| SyscallAnalyzer.PatternConfidence | framework/kernel/syscall_analyzer.py:232-245 | the method computes the confidence, which lies in [0, 1] |
| SyscallAnalyzer.KnownPatternsTable | framework/kernel/syscall_analyzer.py:24-30 | the known-pattern table names five different applications, each with a non-empty pattern |
| SyscallAnalyzer.MatchesOf | framework/kernel/syscall_analyzer.py:63-67 | at most one match per known pattern |
| SyscallAnalyzer.MatchesOfExact | framework/kernel/syscall_analyzer.py:63-67 | the matched apps are exactly those whose pattern is a subsequence, each with confidence 1.0 |
| Common.RatioInUnit | framework/kernel/syscall_analyzer.py:239 | a count over a positive total it does not exceed lies in [0, 1], as the confidence share and the timing-evasion ratios are |
| SyscallAnalyzer.MaxConfidence | framework/kernel/syscall_analyzer.py:72 | `max` is attained and bounds every confidence |
| SyscallAnalyzer.AnalyzeSyscallSequence | framework/kernel/syscall_analyzer.py:36-77 | total = length and unique = number of distinct names. The matches are exactly the apps whose pattern is a subsequence, each at 1.0. The weight is 0.0 with no match, and otherwise (max + entropy factor) / 2, which lies in [0.5, 1] for a non-negative entropy |
| SyscallAnalyzer.DetectCovertChannel | framework/kernel/syscall_analyzer.py:169-212 | the file-I/O flag is raised iff the file syscalls are strictly more than 0.7 × length. The rare-syscall entry appears iff one occurs and carries their count. The entries are exactly one per condition that holds, file I/O first. The weight is 0.70 iff a rare syscall occurs, else 0.0. `likely` holds iff the number of conditions that hold reaches the threshold, so never for a threshold above 2 |
| SyscallAnalyzer.PathsMatching | framework/kernel/syscall_analyzer.py:156 | the comprehension keeps exactly the paths the search accepts, with their multiplicity |
| SyscallAnalyzer.Pairs | framework/kernel/syscall_analyzer.py:154-155 | one (app, pattern) pair per pattern of a group, in order |
| SyscallAnalyzer.DetectedMultiplicity | framework/kernel/syscall_analyzer.py:154-159 | a path is listed once per sensitive pattern it matches, times its own multiplicity |
| SyscallAnalyzer.HintsBelowDetected | framework/kernel/syscall_analyzer.py:157-159 | there are no more hints than detected paths, and there are detected paths iff there are hints |
| SyscallAnalyzer.ScanGroup | framework/kernel/syscall_analyzer.py:155-159 | the inner loop extends both lists by one group's matches |
| SyscallAnalyzer.ScanGroups | framework/kernel/syscall_analyzer.py:154-159 | the outer loop over the application groups yields the detections and hints of all pattern pairs in order |
| SyscallAnalyzer.FileWeight | framework/kernel/syscall_analyzer.py:162-165 | with at least one match the weight lies in [0.5, 0.9] |
| SyscallAnalyzer.AnalyzeFileAccessPatterns | framework/kernel/syscall_analyzer.py:128-167 | the totals are the length and the distinct count. The detected list and the hints follow the fixed pattern table, and each path is listed once per pattern it matches. There are detected paths iff there are hints. The weight is 0.0 with no match, else min(0.50 + 0.40 · ratio, 0.90) |
| AptAnalyzer.RotationAward | framework/apt/analyzer.py:28-34 | 20 points iff lifetime < 30 days, 10 iff 30 ≤ lifetime < 60, else none. One indicator exactly when points are given |
| AptAnalyzer.ToolAward | framework/apt/analyzer.py:37-43 | 20 points iff uniqueness > 0.8, 10 iff in (0.5, 0.8], else none |
| AptAnalyzer.TimingAward | framework/apt/analyzer.py:46-52 | 20 points iff the share > 0.9, 10 iff in (0.7, 0.9], else none |
| AptAnalyzer.OverlapAward | framework/apt/analyzer.py:55-61 | 20 points iff overlap < 0.1, 10 iff in [0.1, 0.3), else none |
| AptAnalyzer.MultistageAward | framework/apt/analyzer.py:64-66 | 20 points iff multi-stage payloads are used |
| AptAnalyzer.Get | framework/apt/analyzer.py:28-55 | `.get(key, default)`, as read at :28, :37, :46, :55 and :166-169: the stored value when the key is present, the default when it is missing |
| AptAnalyzer.Awards | framework/apt/analyzer.py:28-66 | five well-formed components, read with the defaults 90, 0.3, 0.5, 0.5 and False |
| AptAnalyzer.TotalsOfValidAwards | framework/apt/analyzer.py:24-66 | components of 0/10/20 points sum to a multiple of 10 of at most 20 per component. There is at most one indicator each, and none iff no points |
| AptAnalyzer.FiveAwards | framework/apt/analyzer.py:24-66 | the score and indicators are the five components' in order |
| AptAnalyzer.DisciplineTotals | framework/apt/analyzer.py:24-66 | the score is a multiple of 10 in [0, 100], with at most 5 indicators and none iff the score is 0 |
| AptAnalyzer.DisciplineBand | framework/apt/analyzer.py:69-84 | ≥ 70, ≥ 50 and ≥ 30 map to (APT-level, 0.85, CRITICAL), (Sophisticated actor, 0.65, HIGH) and (Intermediate, 0.45, MEDIUM). Anything lower is (Low sophistication, 0.25, LOW) |
| AptAnalyzer.DisciplineBandMonotone | framework/apt/analyzer.py:69-84 | the weight and the risk never decrease with the score |
| AptAnalyzer.AnalyzeOperationalDiscipline | framework/apt/analyzer.py:14-92 | the accumulated score and indicators are the component totals. The score is a multiple of 10 in [0, 100], with at most 5 indicators and none iff the score is 0. Classification, weight and risk are the score's band |
| AptAnalyzer.DefaultCampaignIsLow | framework/apt/analyzer.py:24-84 | with every key missing the score is 0, 'Low sophistication', 0.25, LOW |
| AptAnalyzer.Lower | framework/apt/analyzer.py:106 | `lower()` keeps the length and maps A-Z to a-z character by character |
| AptAnalyzer.LowerIdempotent | framework/apt/analyzer.py:106 | lower-casing twice is lower-casing once |
| AptAnalyzer.LotlTools | framework/apt/analyzer.py:98-108 | an operating system outside the table has no tools |
| AptAnalyzer.DetectLotlUsage | framework/apt/analyzer.py:94-123 | LOTL iff the lower-cased process name (default '') is listed for the OS (default 'windows'). LOTL gives 0.5/0.9/0.4, weight 0.18 and LOW. Otherwise the weight is 0.6. An unknown OS is never LOTL |
| AptAnalyzer.LotlIgnoresCase | framework/apt/analyzer.py:106-108 | the verdict does not depend on the name's case |
| AptAnalyzer.LowSocHours | framework/apt/analyzer.py:133-136 | keeps the hours in 2..5 inclusive, all of them iff every hour is such |
| AptAnalyzer.WeekendActivity | framework/apt/analyzer.py:137 | keeps the time stamps with weekday ≥ 5, all of them iff every one is |
| AptAnalyzer.AnalyzeTimingEvasion | framework/apt/analyzer.py:125-158 | no time stamps iff the result is only weight 0.0. Otherwise it is HIGH iff the small-hours ratio > 0.7 or the weekend ratio > 0.5, which gives weight 0.14, LOW, visibility 0.3, retention 0.9, correlation 0.5, and the two ratios themselves (small-hours count / length, weekend count / length), each in [0, 1]. Otherwise it is NONE with 0.5 |
| AptAnalyzer.SmallHoursEvade | framework/apt/analyzer.py:136-142 | activity only between 02:00 and 05:59 always counts as evasion |
| AptAnalyzer.OpsecBand | framework/apt/analyzer.py:173-181 | strict bands: > 0.7 APT-level/CRITICAL, (0.4, 0.7] Sophisticated/HIGH, ≤ 0.4 Basic/MEDIUM |
| AptAnalyzer.CalculateAptOpsecScore | framework/apt/analyzer.py:160-193 | each component echoes its metric (default 0.5). The score is their product, and the classification and risk are its band |
| AptAnalyzer.DefaultMetricsAreBasic | framework/apt/analyzer.py:166-181 | with every metric missing the score is 0.0625, 'Basic' |
| AptAnalyzer.ScoreInUnit | framework/apt/analyzer.py:166-171 | with metrics in [0, 1] the score lies in [0, 1] |
| OsintAnalyzer.Delta | framework/osint/analyzer.py:27 | a delta in minutes is non-negative, and 0 iff the times are equal |
| OsintAnalyzer.DeltaSymmetric | framework/osint/analyzer.py:27 | a delta does not depend on the order of the two times |
| OsintAnalyzer.MinLength | framework/osint/analyzer.py:25-26 | the number of index pairs is the shorter length |
| OsintAnalyzer.PairedDeltas | framework/osint/analyzer.py:24-28 | one delta per index below both lengths, commit i against operation i |
| OsintAnalyzer.SumNonNegative | framework/osint/analyzer.py:30 | a sum of deltas is non-negative |
| OsintAnalyzer.AverageDeltaNonNegative | framework/osint/analyzer.py:30 | the average delta is non-negative |
| OsintAnalyzer.AverageDeltaSymmetric | framework/osint/analyzer.py:24-30 | exchanging commits and operations leaves the average unchanged |
| OsintAnalyzer.AverageDeltaIgnoresTail | framework/osint/analyzer.py:25-26 | operations beyond the last commit do not count |
| OsintAnalyzer.GithubBand | framework/osint/analyzer.py:33-41 | < 30 gives 0.95/CRITICAL, [30, 120) gives 0.75/HIGH, ≥ 120 gives 0.4/MEDIUM |
| OsintAnalyzer.AnalyzeGithubTiming | framework/osint/analyzer.py:12-53 | the loop's average is the paired average delta, which is ≥ 0. Correlation and risk are its band, visibility and retention are 1.0, and the weight equals the correlation. No pairs gives CRITICAL and 0.95 |
| OsintAnalyzer.AnalyzeLinkedinTeam | framework/osint/analyzer.py:55-76 | the count is the size of the set intersection, at most either set. > 5 gives 0.8/HIGH, [3, 5] gives 0.5/MEDIUM, ≤ 2 gives 0.3/LOW |
| OsintAnalyzer.LinkedinIgnoresDuplicates | framework/osint/analyzer.py:59 | a repeated employee entry changes nothing, and the two lists play symmetric roles |
| OsintAnalyzer.RegistrarsExact | framework/osint/analyzer.py:86-87 | a registrar is collected iff some domain has it, 'unknown' when missing |
| OsintAnalyzer.NameserversExact | framework/osint/analyzer.py:88-90 | a name server is collected iff some domain lists it |
| OsintAnalyzer.WhoisBand | framework/osint/analyzer.py:93-101 | one registrar with ≤ 2 name servers gives 0.85/CRITICAL. Otherwise ≤ 2 registrars gives 0.6/HIGH, and more than 2 gives 0.3/MEDIUM |
| OsintAnalyzer.AddServers | framework/osint/analyzer.py:89-90 | the inner loop adds exactly a domain's name servers |
| OsintAnalyzer.AnalyzeWhoisCorrelation | framework/osint/analyzer.py:78-109 | the counts are the sizes of the collected sets and weight and risk are their band. No domains gives HIGH 0.6, and any domain gives at least one registrar |
| ForensicsAnalyzer.AnalyzeExifGps | framework/forensics/analyzer.py:9-36 | GPS is found iff both coordinates are truthy, so 0 counts as absent. The coordinates are then echoed, model and time default to 'unknown', and the result is 0.81/CRITICAL. Otherwise the weight is 0.0 |
| ForensicsAnalyzer.GpsWeightIsProduct | framework/forensics/analyzer.py:29-32 | 0.81 is visibility × retention × correlation |
| ForensicsAnalyzer.MacBand | framework/forensics/analyzer.py:52-60 | < 3600 s gives 0.8/HIGH, [3600, 86400) gives 0.5/MEDIUM, ≥ 86400 gives 0.3/LOW |
| ForensicsAnalyzer.AnalyzeMacTimes | framework/forensics/analyzer.py:38-74 | with both times the result holds the distance between modified and accessed, echoes all three times, and takes its risk from the band, with weight 0.7 · 0.9 · correlation. With either time missing the result is only weight 0.0 |
| ForensicsAnalyzer.MacTimesSymmetric | framework/forensics/analyzer.py:50 | exchanging the two times changes neither the difference, the weight nor the risk |
| ForensicsAnalyzer.CreatedIsIgnored | framework/forensics/analyzer.py:46-67 | the creation time never affects the weight or the risk |
| ForensicsAnalyzer.AnalyzeDeletedFiles | framework/forensics/analyzer.py:76-98 | the count is the list length, 0 when the key is missing. > 10 gives 0.7/HIGH, 1..10 gives 0.4/MEDIUM, 0 gives 0.0/LOW. Recoverable iff count > 0 |
| BrowserAnalyzer.CheckWebrtcLeak | framework/browser/analyzer.py:12-35 | a leak iff the real address is given, non-empty and differs from the VPN address. A leak echoes both addresses at 0.90/CRITICAL. Otherwise the result is exactly not-leaked with weight 0.0 |
| BrowserAnalyzer.SameAddressNeverLeaks | framework/browser/analyzer.py:23 | the VPN address itself, or no address, is never a leak |
| BrowserAnalyzer.LeakWeightIsProduct | framework/browser/analyzer.py:28-31 | 0.90 is visibility × retention × correlation |
| BrowserAnalyzer.AnalyzeCanvasFingerprint | framework/browser/analyzer.py:37-52 | echoes the hash, with uniqueness 0.999, weight 0.76 and HIGH |
| BrowserAnalyzer.CanvasIgnoresHash | framework/browser/analyzer.py:43-52 | apart from the echoed hash the result is the same for every hash |
| BrowserAnalyzer.CanvasWeightIsProduct | framework/browser/analyzer.py:46-49 | 0.76 is visibility × retention × correlation |
| BrowserAnalyzer.CheckFontEnumeration | framework/browser/analyzer.py:54-76 | unique counts the entries outside {Arial, Times, Courier} with repetition, and is at most total = length. > 10 gives 0.7/HIGH, 6..10 gives 0.5/MEDIUM, ≤ 5 gives 0.3/LOW |
| BrowserAnalyzer.CommonFontsDoNotCount | framework/browser/analyzer.py:58 | appending a common font does not change the unique count |

## Left out

- `visualize` (Plotly figure, random spring layout, HTML file) is rendering and I/O.
- The fallbacks for a missing networkx or Plotly: the model always has networkx.
- The report's text (rulers, `:.2f`, the description lines) is not modelled. The counts and the
  two sorted lists are returned as data.
- AttributionGraph.AttributionGraphVisualizer.CalculateAttributionPaths: a target that is not a
  node is not modelled as the source handles it. Given such a target, networkx's
  `all_simple_paths` treats it as a collection of targets (`set(target)`, for a string its
  characters), so the source returns the paths into every node whose id is one character of the
  target, and `[]` when there is none; only a target that cannot be iterated raises
  `NodeNotFound`. The model instead reports every non-node target as the outcome `NodeNotFound`
  (and `[]` on a graph without nodes, where the source loop never runs); its promises about the
  ranking are made for a target that is a node.
- networkx's exact path order inside one source is not pinned. The model fixes one depth-first
  order over successors in edge-insertion order. Because the sort is stable, ties between paths
  of one source may come out in a different order than networkx's.
- The path string `' → '.join(path)` is kept as the node sequence.
- The example `create_example_graph` and the `__main__` block (visualization/attribution_graph.py:314-371) are not modelled. As written its line 336 is indented by three spaces inside a four-space block, which Python rejects with an `IndentationError` when it compiles the file, so the module cannot be imported until that line is re-indented; the model follows the evidently intended code.
- Path and report weights are `real`: Python float rounding (for example of a product, or of
  `0.7 * len`) is not modelled.
- `analyze_syscall_sequence`'s entropy calls `bit_length()` on a float, which raises for every
  non-empty input. The model takes the entropy as a parameter, 0.0 when the input is empty.
- `analyze_timing_patterns` and `_detect_periodicity` (mean, median, standard deviation of
  floats) are floating-point statistics and are not part of this model.
- Regular-expression semantics: `re.search` is the predicate parameter `search`.
- The covert-channel message strings are the constructors `ExcessiveFileIo` and `RareCalls(count)`.
- `analyze_timing_evasion`'s `target_timezone` is never read by the source, so the model has no
  such parameter. Time stamps are `(hour, weekday)` pairs.
- The timing-evasion weight 0.14 is kept as written, although its visibility,
  retention and correlation (0.3, 0.9, 0.5) multiply to 0.135; the other fixed weights equal
  their products exactly.
- AptAnalyzer.Lower: `str.lower()` is modelled for ASCII only.
- `analyze_operational_discipline` tests `uses_multistage_payloads` for truthiness. The model
  reads it as an optional boolean.
- `analyze_github_timing` and `analyze_mac_times` subtract datetimes. The model subtracts whole
  seconds, and a `datetime` is always truthy, so presence is the only test.
- The demo functions (`create_example_graph`, the analyzer's `__main__`), the package
  `__init__` files and the simulation scripts under `simulations/failure-scenarios/` are
  print-driven scripts and are not part of this model.

## Findings

| source | as written | input that shows it | evidently intended | confidence | as-written member | corrected member |
|---|---|---|---|---|---|---|
| visualization/attribution_graph.py:44, 73 | `if not self.graph: return` tests the truth value of a networkx graph, which is false while it has no nodes, so a fresh visualizer ignores every `add_signal` and `add_correlation` call and its graph stays empty for ever; `generate_report` (:251, modelled as written) then always returns its "No graph data" error and `calculate_attribution_paths` (:213) always `[]` | a new visualizer, then `add_signal("dns", "DNS", 0.9)`: the graph still has no node | the guard means "networkx is unavailable" (`self.graph is None`), so the node is added | not executed | AttributionGraph.AsWrittenGraphStaysEmpty | AttributionGraph.AttributionGraphVisualizer.AddSignal |
