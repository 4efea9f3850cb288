# A verified model of threadctl

threadctl is a daemon that pins the threads of configured Android apps to CPUs. It expands a
configuration into rules, matches processes and threads against them, merges the matches into a
policy, applies the policy through cpuset directories and affinity calls, and re-applies it at an
interval that adapts to how often something else moves the threads away. This project states what
that logic promises and proves it.

| file | what it models |
|---|---|
| `prelude.dfy` | options, and sequences seen as bags |
| `cpu_text.dfy` | the meaning of CPU range texts: printing, parsing, maximal runs |
| `cpu_bitmap.dfy` | the 1024-bit CPU set in sixteen words, and the printer and parser loops over it |
| `rules.dfy`, `merge.dfy` | rules, policies, and the single-pass merge against its field-by-field table |
| `patterns.dfy` | the score that decides between wildcard patterns |
| `ruleset.dfy` | compiling, the index, the lookup cache, resolving |
| `compiling.dfy` | what compiling a rule means, field by field |
| `order.dfy` | which results depend on the order of the rules, exactly |
| `layers.dfy` | which rules a thread comes under, told by the texts of the rules and by fnmatch |
| `config.dfy` | expanding a configuration held in hash maps, in the order the loops visit them |
| `config_rules.dfy` | what each rule of a configured app says, by the user's and the profile's entries |
| `config_order.dfy` | from configuration to policy: when the order of the hash maps matters, exactly |
| `backend.dfy`, `policy.dfy` | the cpuset directory cache, and applying a policy to one thread |
| `tracker.dfy` | per-process state and reference counts on cpuset directories |
| `engine.dfy` | events, scans, relocks, cleanup, and what every run keeps |
| `engine_laws.dfy` | what every event, relock and scan does, told by its results |
| `reclaim.dfy` | which cpuset directories outlive their users |
| `relock.dfy` | the adaptive interval |
| `observe.dfy` | the observation window |
| `kernel_filter.dfy` | the event rate limit and the name filter in the kernel |
| `pending.dfy` | the queues of processes whose name cannot be read yet |

Code that updates state in place is a class or a method with loops. Each such method is proved to
compute a function of the state before, and the laws are proved about those functions: what every run
keeps, and, in the lemmas named `..Meaning`, what a single operation does, without naming the function. What the
kernel answers (liveness, thread lists, names, start times, affinity masks, whether mkdir and rmdir
succeed) is a parameter and may be anything; so is `fnmatch`, whose notation section 2.13 of the
POSIX.1-2017 Shell Command Language describes and of which only determinism is used. Loops over
hash maps and hash sets visit their elements in an arbitrary order.

## What the proofs found

The model follows the code. These are the places where the code does less than its comments or
design promise; each has a lemma with the exact condition or a concrete input.

- A pattern score below zero wraps in a release build, so `*` scores near 2^64 and outranks every
  pattern whose score does not wrap (`WrappedScoreWins`, `NoWrap`). Against a pattern of at most 101
  bytes with as many wildcards, the longer fixed prefix wins unless only the other one wraps
  (`LongerPrefixWins`); `a*` does not outrank a star followed by fewer than 10 or more than 100 letters
  (`PrefixBoundIsExact`). The doc comment gives `com.*.service` the score 401; counting its twelve
  literals, the code computes 402 (`ComService`). `EqualWildcards` ranks any two patterns with as many
  wildcards, whatever their length.
- A pattern whose score is exactly 0, such as `*aaaaaaaaaa`, wins for no package: its rules never
  apply and its apps are ignored (`DeadPattern`, `DeadRules`).
- Two matching patterns that share the top score make the winner depend on the order in which the
  hash map of apps is visited (`WinnerOverVisits`, `TieDependsOnOrder`). Without such a tie the
  scheduling fields depend on the visiting order exactly when two hit thread entries of the deciding
  app set the field differently, or no hit thread entry sets it and two hit thread types do. A thread
  entry and a thread type that disagree always resolve to the thread entry (`SchedOverVisits`,
  `NiceOverVisits`, `GroupFirst`).
- An app that sets nothing but the CPUs of an unknown thread type gets no rule at all, not even the
  placeholder that is meant to keep it on the whitelist (`AppWithoutRules`, `UnknownTypeOnly`).
- A process whose start time could not be read keeps its old package name when it is entered under a
  new one, although the comment speaks of updating it (`EnterMeaning`, `OldNameKept`).
- A reload drops processes that only a wildcard pattern covers (`ReloadForgets`, `ReloadForgetsExample`).
- `ensure_dir` caches a name even when making the directory failed, so the early return is right
  exactly when the last attempt succeeded (`EnsureCoherent`, `FailureIsCached`).
- A directory is made before the daemon learns that the thread is gone or has no usable CPU, and then
  nobody registers it: it stays, cached, and the end of the process does not reclaim it
  (`ExitedLeavesDir`, `ThreadGone`). This and a refused rmdir are the only ways (`UnheldIsExcused`).
- The running average of loads truncates at every step and is only a lower bound on the mean
  (`AverageIsLowerBound`). It is exact for every history of at most two samples and not in general
  for any longer length (`ExactLengths`); the loads 0, 1, .., n - 1 leave it at 0 (`RisingLoads`).
- Within the first 0.1 s after boot the rate limit lets four events through (`BootBurst`).
- A wildcard package contributes keys of its own text. Names cut to their first bytes are all let
  through exactly if the text before the first wildcard has at least 8 bytes, and for names cut to
  their last bytes that text never suffices (`FrontExact`, `BackMissed`, `OneTextExact`). With one star,
  what follows it decides about the last bytes (`StarExact`). With `com.*`, com.example.app is missed
  either way (`ShortPrefixMissed`); with `com.tencent.*`, com.tencent.mobileqq if its last bytes are
  kept (`WildcardMissed`).
- The kernel map keeps the size it was loaded with: a reload with more packages can lose keys
  (`UpdateWhitelist`, `ReloadOverflows`).

## Model

| member | source | states |
|---|---|---|
| CpuBitmap.CpuBits.Set | crates/core/src/topology.rs:29-34 | setting a bit adds that CPU and no other; a CPU beyond 1023 is ignored |
| CpuBitmap.CpuBits.IsSet | crates/core/src/topology.rs:36-39 | a bit is set exactly when the CPU is in the set |
| CpuBitmap.CpuBits.Count | crates/core/src/topology.rs:41-43 | the bits counted word by word are the size of the set |
| CpuBitmap.CpuBits.IsEmpty | crates/core/src/topology.rs:51-53 | true exactly for the empty set |
| CpuBitmap.CpuBits.SameBits | crates/core/src/policy.rs:266 | comparing the words decides whether the sets are equal |
| CpuBitmap.CpuBits.Or | crates/core/src/topology.rs:45-49 | word by word, the union |
| CpuBitmap.CpuBits.And | crates/core/src/topology.rs:56-60 | word by word, the intersection |
| CpuBitmap.CpuBits.ToRangeString | crates/core/src/topology.rs:89-125 | the loop over words, which skips zero words and carries a run across word borders, prints exactly the maximal runs of the set in increasing order |
| CpuBitmap.PushRange | crates/core/src/topology.rs:159-171 | closing an open run appends it, with a comma unless it is the first, and leaves none open |
| CpuBitmap.ParseCpuRanges | crates/core/src/topology.rs:176-214 | for every text the parser yields the CPUs the text names, intersected with the present mask when there is one; malformed parts are skipped, reversed bounds swapped |
| CpuText.ParseUnion | crates/core/src/topology.rs:181-213 | a text of two lists with a comma, blank or tab between them names the CPUs of both |
| CpuText.TrimMeaning | crates/core/src/topology.rs:182 | trimming takes white space off both ends and nothing else |
| CpuText.BlankMeaning | crates/core/src/topology.rs:182-185 | white space around a part does not matter, and an empty part names no CPU |
| CpuText.PairMeaning | crates/core/src/topology.rs:186-197 | two numbers with a dash name the CPUs below 1024 between them, in either order; a second number beyond 64 bits counts as missing, and a first one beyond or equal to the largest names nothing |
| CpuText.OpenMeaning | crates/core/src/topology.rs:186-197 | a number, a dash and no number name that CPU alone |
| CpuText.JunkMeaning | crates/core/src/topology.rs:186-203 | a part that starts with no number names no CPU |
| CpuText.NumberMeaning | crates/core/src/topology.rs:187-199 | a number is an optional plus sign and at least one digit |
| CpuText.PlusMeaning | crates/core/src/topology.rs:187-199 | a plus sign before a number does not matter |
| CpuText.RunsCover | crates/core/src/topology.rs:89-125 | the printed runs cover the set and nothing else |
| CpuText.RunsSeparated | crates/core/src/topology.rs:89-125 | between two printed runs a CPU is missing, so the text is as short as it can be |
| CpuText.RunsUnique | crates/core/src/topology.rs:89-125 | a separated list of runs is the one that gets printed for the CPUs it covers: the text form is unique |
| CpuText.RoundTrip | crates/core/src/topology.rs:89-214 | parsing the printed text gives the set back, for every set of CPUs below 1024 |
| CpuText.RangeStringInjective | crates/core/src/topology.rs:89-125 | two sets print alike exactly when they are equal: directory names and CPU sets are one to one |
| CpuText.CanonicalForm | crates/core/src/topology.rs:89-214 | printing what a text means keeps its meaning, and two texts have the same canonical form exactly when they mean the same |
| CpuText.EmptyName | crates/core/src/topology.rs:89-125 | the printed name is empty exactly for the empty set |
| Rules.PriorityInjective | crates/core/src/ruleset.rs:75-85 | two sources of equal priority are the same source, on which grouping by source after sorting rests |
| Rules.SourceOrder | crates/core/src/ruleset.rs:75-85 | each source outranks those declared before it; an exact package name outranks a pattern |
| Merge.SortFirst | crates/core/src/merge.rs:59-66 | the first setter in the stably sorted matches is the first-listed setter of highest priority |
| Merge.WinningSource | crates/core/src/merge.rs:81-98 | in sorted order, the union over the highest-priority source with any CPUs is the union over the source of the first hit with CPUs |
| Merge.MergeRules | crates/core/src/merge.rs:59-134 | the single grouped pass equals the merge table: CPUs are the union over the highest-priority source naming any, sched with its priority and nice come from the first setter in stable priority order, uclamp_min is the maximum and uclamp_max the minimum over all, and None comes back exactly when no match sets any field |
| Merge.Leader | crates/core/src/merge.rs:9-16 | FirstWins: the setter found has the highest priority among setters and is the first listed of that priority |
| Merge.Floor | crates/core/src/merge.rs:9-16 | Max: attained by a match and no match asks for more |
| Merge.Ceiling | crates/core/src/merge.rs:9-16 | Min: attained by a match and no match asks for less |
| Merge.BagFields | crates/core/src/merge.rs:59-66 | CPUs, both uclamp bounds and which fields are set do not depend on the order of the matches |
| Merge.FillMissing | crates/core/src/merge.rs:137-154 | in place, the fallback fills only the unset fields; a scheduling policy brings its own priority along |
| Patterns.PatternSpecificity | crates/core/src/ruleset.rs:518-534 | the character loop computes 100 per prefix byte, plus literals, minus 10 per special, modulo 2^64 |
| Patterns.SpecialsMeaning | crates/core/src/ruleset.rs:518-534 | the specials counted are `*`, `?`, `[` and `]`, and the fixed prefix is the longest one without any of them |
| Patterns.ScoreOf | crates/core/src/ruleset.rs:518-534 | a pattern below 128 bytes scores its true value if that is not negative, and 2^64 above it otherwise |
| Patterns.NoWrap | crates/core/src/ruleset.rs:518-534 | the score is the true value exactly when 10 per special is at most 100 per prefix byte plus literals |
| Patterns.ZeroScore | crates/core/src/ruleset.rs:518-534 | the score is 0 exactly when prefix and literals just make up for the specials |
| Patterns.LongerPrefixWins | crates/core/src/ruleset.rs:508-534 | with equally many specials, the longer fixed prefix has the larger true value against any pattern of at most 101 bytes, and outranks it exactly if the shorter one does not wrap or both do |
| Patterns.EqualWildcards | crates/core/src/ruleset.rs:508-534 | of any two patterns below 128 bytes with equally many specials: if both scores wrap or neither does, one ranks higher exactly when a hundred times its lead in prefix bytes exceeds its arrears in characters; otherwise the one that wraps ranks higher |
| Patterns.ComService | crates/core/src/ruleset.rs:514-515 | `com.*.service` scores 402 |
| Patterns.PrefixBoundIsExact | crates/core/src/ruleset.rs:508-534 | `a*` outranks a star followed by n letters exactly when 10 <= n <= 100: both bounds are sharp |
| Patterns.WrappedScoreWins | crates/core/src/ruleset.rs:518-534 | a pattern whose score wraps outranks every pattern whose score does not |
| RuleSets.Compile | crates/core/src/ruleset.rs:221-337 | compiling yields the index of exactly the accepted rules in order and one error per refused rule, and an empty cache |
| Compiling.CompileMeaning | crates/core/src/ruleset.rs:225-277 | a rule is refused for a package text that is empty or has 128 bytes, else a thread text of 32, else CPUs of which none is present; an accepted one keeps its texts, its present CPUs and their name, nice and uclamp, and takes policy and priority from its sched text |
| Compiling.SchedMeaning | crates/core/src/config.rs:142-152 | which name sets which scheduling policy, that the priority follows a colon, and that an unknown name sets nothing |
| Compiling.PrioMeaning | crates/core/src/config.rs:146 | a priority is a signed decimal number of 32 bits |
| Compiling.PrioJunk | crates/core/src/config.rs:146 | a text with any other character is no priority |
| RuleSets.BuildIndex | crates/core/src/ruleset.rs:279-305 | the loop builds the exact-name map, one scored group per distinct pattern in first-seen order, and the distinct package list |
| RuleSets.PlacedOnce | crates/core/src/ruleset.rs:279-305 | every accepted rule is in exactly one group, and once in it |
| RuleSets.PositionsMeaning | crates/core/src/ruleset.rs:279-305 | a group lists the positions of its rules in increasing order, all of them and nothing else |
| RuleSets.Best | crates/core/src/ruleset.rs:356-367 | the winner is the first-compiled pattern of greatest score among the matching patterns of positive score; none wins exactly when no matching pattern has a positive score |
| RuleSets.BestGroup | crates/core/src/ruleset.rs:356-367 | the wildcard loop with its running best finds that winner |
| RuleSets.Lookup | crates/core/src/ruleset.rs:348-369 | an uncached query: the exact-name rules, then the rules of the winning group |
| RuleSets.DeadPattern | crates/core/src/ruleset.rs:356-367 | a pattern of fewer than 128 bytes can win, among some rules and for some package, exactly unless 10 per special equals 100 per prefix byte plus literals, that is, unless it scores 0 |
| RuleSets.DeadRules | crates/core/src/ruleset.rs:356-367 | the rules of `*aaaaaaaaaa` apply to no package, whatever the pattern matches |
| RuleSets.LookupIsScan | crates/core/src/ruleset.rs:341-376 | looking a package up in the index gives what scanning all rules gives |
| RuleSets.RuleSet.CollectPkgMatches | crates/core/src/ruleset.rs:341-376 | cached or not, every query returns the exact-name rules in compile order followed by the rules of the winning pattern |
| RuleSets.RuleSet.IsInterested | crates/core/src/ruleset.rs:379-381 | true exactly when the scan finds a rule, whatever was asked before |
| RuleSets.RuleSet.HasThreadRules | crates/core/src/ruleset.rs:384-388 | true exactly when some rule found by the scan is a thread rule |
| RuleSets.RuleSet.Resolve | crates/core/src/ruleset.rs:432-478 | every query returns the layered policy read off the rules without index or cache |
| Layers.ResolveMeaning | crates/core/src/ruleset.rs:432-478 | a thread is resolved from two layers: the applying rules that name a thread pattern without NUL, where the name has fewer than 32 bytes and fnmatch(pattern, name) holds; and the applying rules that name no thread |
| Layers.ThreadLayer | crates/core/src/ruleset.rs:439-451 | a hit is in the thread layer exactly if such a rule applies to the package by exact name or as the winning pattern |
| Layers.PackageLayer | crates/core/src/ruleset.rs:453-457 | and in the package layer exactly if an applying rule names no thread |
| Layers.RejectedThread | crates/core/src/ruleset.rs:439-468 | if fnmatch rejects the name for every thread rule that applies, the package rules alone decide |
| Layers.WinnerMeaning | crates/core/src/ruleset.rs:356-367 | the winner matches the package (below 128 bytes) by fnmatch(pattern, package), is ranked above 0, not below any other that may win, and above those that occur before it; none wins exactly if none may |
| Layers.ThreadRulesMeaning | crates/core/src/ruleset.rs:384-388 | a package has thread rules exactly if a rule that applies to it names a thread |
| Layers.NameDoesNotMatter | crates/core/src/engine.rs:146-168 | without thread rules every name resolves alike, so it need not be read |
| RuleSets.LayeredMeaning | crates/core/src/ruleset.rs:422-478 | field by field: from the thread hits where they set it, else from the package rules, sched together with its priority; None exactly when the deciding layer sets nothing or the result has no CPUs, sched or nice; the directory is the range text of the final CPUs |
| RuleSets.InterestMeaning | crates/core/src/ruleset.rs:341-381 | the rules care about a package exactly when a rule names it literally or some pattern wins for it |
| RuleSets.PkgsMeaning | crates/core/src/ruleset.rs:279-305 | the package list holds exactly the package texts of the rules |
| RuleSets.ReloadForgets | crates/core/src/tracker.rs:231-242 | the literal comparison on reload keeps exactly the processes the rules care about except for packages that only a pattern covers, and for packages that are themselves the text of a pattern for which none wins |
| RuleSets.ReloadForgetsExample | crates/core/src/tracker.rs:231-242 | with rules for `com.*` alone, a reload drops com.a, which the rules care about |
| RuleOrder.KeepGroup | crates/core/src/ruleset.rs:439-457 | the hits of one group are its rules' policies picked from all rules in order |
| RuleOrder.WinnerOrderFree | crates/core/src/ruleset.rs:356-367 | the winning pattern is the same for every order of the rules exactly when the top score is not shared |
| RuleOrder.FieldOrderFree | crates/core/src/merge.rs:97-104 | merging in any order of the hits gives a first-wins field one value exactly when the foremost hits agree on it |
| RuleOrder.ResolveOrderFree | crates/core/src/ruleset.rs:432-478 | two orders of the rules resolve every thread to the same CPUs, directory and uclamp bounds if no two matching patterns share the top score, and to the same sched with its priority, and nice, where the foremost hits of the layer that gives the field agree |
| RuleOrder.SchedOrderFree | crates/core/src/ruleset.rs:432-478 | without such ties, sched and its priority are the same for every order of the rules exactly when nothing results or the foremost hits of their layer agree on them |
| RuleOrder.NiceOrderFree | crates/core/src/ruleset.rs:432-478 | the same for nice |
| RuleOrder.InterestOrderFree | crates/core/src/ruleset.rs:379-381 | nor does the order decide whether a package is of interest |
| RuleOrder.CompileOrderFree | crates/core/src/ruleset.rs:221-337 | two orders of the configuration rules compile to two orders of the same rules |
| RuleOrder.TieDependsOnOrder | crates/core/src/ruleset.rs:356-367 | with the tied patterns `a*` and `a?` the one listed first decides the CPUs |
| Config.OverridePolicy | crates/core/src/config.rs:314-335 | in place, each set field of the user wins, and naming CPUs or a cluster drops the template's of the other kind (what this means for the rules: AppRulesMeaning) |
| Config.MergeInto | crates/core/src/config.rs:255-309 | visiting the user's entries in any order overrides the template's entries key by key |
| Config.AppRules | crates/core/src/config.rs:255-309 | the rules of an app are the default rule, then its threads in some order without repetition, then its thread types in some order with the patterns of each in their fixed order, then a placeholder if nothing is set |
| Config.ToRules | crates/core/src/config.rs:255-309 | the expansion is the listing for some visiting order: the apps in some order without repetition, each with its rules in the order of AppRules |
| ConfigRules.AppRulesMeaning | crates/core/src/config.rs:255-309 | which rules an app has and what they say: one from the defaults, one a thread, one a pattern of a built-in thread type, each where user or profile sets anything, with sched, nice and uclamp the user's where set and the profile's otherwise; CPUs from the user's cpus, else the user's cluster, else the profile's; and an empty rule exactly if the defaults set nothing and no entry names CPUs |
| ConfigRules.EntryMeaning | crates/core/src/config.rs:314-398 | the same for one entry |
| ConfigRules.PatternTable | crates/core/src/config.rs:241-246 | the built-in thread types and their patterns |
| ConfigRules.ClusterMeaning | crates/core/src/config.rs:369-388 | a cluster name stands for the cluster of that name, else for itself if it looks like a range, else for the big cluster, else for the largest |
| ConfigRules.FindMeaning | crates/core/src/config.rs:372-375 | the cluster found is the first that goes by the name, in any mix of ASCII upper and lower case |
| ConfigRules.LargestMeaning | crates/core/src/config.rs:384-385 | the largest is the last of those with the greatest capacity |
| Config.ListingBag | crates/core/src/config.rs:255-309 | all visiting orders list the same rules equally often |
| Config.AppWithoutRules | crates/core/src/config.rs:286-306 | an app yields no rule exactly when it sets nothing by default, for any thread or any built-in thread type, but sets CPUs for a thread type that is not built in |
| Config.UnknownTypeOnly | crates/core/src/config.rs:286-306 | an app with nothing but CPUs for the thread type "gpu" yields no rule |
| ConfigOrder.ConfigOrderFree | crates/core/src/config.rs:255-309 | from configuration to policy: any two visiting orders place every thread alike and agree on interest, if no two matching patterns share the top score |
| ConfigOrder.GroupHits | crates/core/src/kdl_parser.rs:22-27 | apps being filed under their own package, the rules of a package come from one app alone |
| ConfigOrder.GroupFirst | crates/core/src/config.rs:281-292 | in every visiting order a hit thread entry that sets a field goes before the thread types |
| ConfigOrder.PackageHitsSame | crates/core/src/config.rs:277-306 | the package rules are listed in one and the same order by every visit |
| ConfigOrder.SchedOverVisits | crates/core/src/config.rs:277-292 | without ties of patterns, sched and its priority are the same for every visiting order exactly when the hit thread entries of the deciding app that set one agree, or none of them sets one and its hit thread types agree |
| ConfigOrder.NiceOverVisits | crates/core/src/config.rs:277-292 | the same for nice |
| ConfigOrder.WinnerOverVisits | crates/core/src/config.rs:255-258 | the winning pattern is the same for every visiting order exactly when the top score is not shared |
| Backend.CpusetBackend.EnsureDir | crates/core/src/backend.rs:89-103 | a cached name returns early, and it is recorded whether the directory was there; otherwise the name is cached, even if making the directory fails |
| Backend.EnsureMeaning | crates/core/src/backend.rs:89-103 | a name not cached is tried once, and then exists exactly if mkdir succeeds or it was there; a cached name changes nothing on disk; other names are untouched |
| Backend.CpusetBackend.ForgetCpusetDir | crates/core/src/backend.rs:29-33 | removes that name from the cache and nothing else |
| Backend.CpusetBackend.RemoveDir | crates/core/src/topology.rs:231-235 | true exactly when the directory existed and the kernel removed it |
| Backend.EnsureCoherent | crates/core/src/backend.rs:89-103 | ensuring keeps the cache telling the truth: a cached directory exists, and an early return found it there, exactly when the last attempt before to make it succeeded |
| Backend.ReclaimCoherent | crates/core/src/tracker.rs:179-202 | reclaiming keeps it as well, because each removed directory is forgotten |
| Backend.CachedDirsExist | crates/core/src/backend.rs:20-33 | if making directories never fails, every cached directory exists |
| Backend.ReturnsRight | crates/core/src/backend.rs:93-96 | and every early return was right |
| Backend.FailureIsCached | crates/core/src/backend.rs:93-102 | a directory that could not be made stays cached and missing, and asking again returns early |
| ThreadPolicy.OnlineFilter | crates/core/src/policy.rs:285-296 | clearing offline bits one by one leaves requested ∩ online, or everything when the online set is unknown |
| ThreadPolicy.MaskSet | crates/core/src/policy.rs:285-374 | the mask handed to the kernel is non-empty and equals requested ∩ online (when known) ∩ allowed (when readable); there is none exactly when the thread is already placed or that intersection is empty |
| ThreadPolicy.ApplyAffinity | crates/core/src/policy.rs:228-440 | the outcome and the only effects (ensuring the directory, one affinity call with that mask), although the code compares range texts to see whether the mask shrank |
| ThreadPolicy.AffinityMeaning | crates/core/src/policy.rs:232-440 | each outcome exactly: Downgraded if the call succeeds with a proper part of requested ∩ online, Applied if the thread is placed already or it succeeds with all of it, Exited for ESRCH, Einval and BlockedByPerm for EINVAL and EPERM with the whole mask, Failed for any other error, BlockedByCgroup if the allowed set leaves nothing, SkippedNoCpus if nothing is requested or online |
| ThreadPolicy.EffectsMeaning | crates/core/src/policy.rs:238-374 | the directory is asked for exactly if CPUs are requested, cpusets are in use and it has a name; then the mask is set if there is one |
| ThreadPolicy.ApplyThread | crates/core/src/policy.rs:124-155 | affinity, sched and uclamp in this order with their early returns, and the outcome that is reported |
| ThreadPolicy.OutcomeMeaning | crates/core/src/policy.rs:124-222 | the thread is reported gone exactly if the affinity, scheduler or uclamp call finds it gone, the last two being skipped for fifo and rr without the right to them; refused exactly if affinity or scheduler are; else the affinity outcome stands |
| Tracker.StateTracker.Enter | crates/core/src/tracker.rs:120-158 | its four branches: unchanged, new image, process id reused (the old process's references are released first), new process |
| Tracker.StateTracker.ReleaseState | crates/core/src/tracker.rs:179-202 | one count is given back per directory; those at zero are dropped, handed to rmdir, and forgotten by the cache if rmdir removed them |
| Tracker.StateTracker.ReleaseDir | crates/core/src/tracker.rs:180-200 | one directory: the last reference, and only that, hands it to rmdir |
| Tracker.StateTracker.Remove | crates/core/src/tracker.rs:170-176 | removing a process releases its directories; true exactly if it was tracked |
| Tracker.StateTracker.RemoveTid | crates/core/src/tracker.rs:163-167 | only that thread of that process stops being applied |
| Tracker.StateTracker.RegisterDirs | crates/core/src/tracker.rs:205-217 | each new non-empty directory counts once per process however often it is listed |
| Tracker.StateTracker.RetainInterested | crates/core/src/tracker.rs:232-242 | exactly the processes whose package is listed stay, untouched |
| Tracker.ReleaseCounts | crates/core/src/tracker.rs:179-202 | releasing never meets a missing or zero count, so the subtraction never saturates; counts still equal holders; and what reaches zero is what nobody holds any more |
| Tracker.RemoveInv | crates/core/src/tracker.rs:170-202 | removing a process keeps all laws: counts equal holders, no zero or empty name counted, rmdir only on unheld directories, cache truthful |
| Tracker.RemoveLeaves | crates/core/src/tracker.rs:170-202 | a removed process is not tracked; exactly the directories that it alone held lose their count and are handed to rmdir, and those rmdir removes leave disk and cache |
| Tracker.EnterInv | crates/core/src/tracker.rs:120-158 | so does entering, including the process-id reuse branch |
| Tracker.RegisterInv | crates/core/src/tracker.rs:205-217 | so does registering directories that have been ensured |
| Tracker.RegisterMeaning | crates/core/src/tracker.rs:205-217 | each listed directory with a name is held afterwards, and its count grows by one if it was not held before |
| Tracker.RemoveAllInv | crates/core/src/tracker.rs:232-242 | so does removing any processes one after the other |
| Tracker.EnterMeaning | crates/core/src/tracker.rs:116-158 | the old package name survives exactly when the start time was never readable; the state is a new one exactly for a new process or a reused id, and otherwise nothing else changes |
| Tracker.ReuseReleases | crates/core/src/tracker.rs:143-150 | a reused id gives up the old process's directories as if it had ended |
| Tracker.OldNameKept | crates/core/src/tracker.rs:124-126 | a process first seen as zygote without a start time is still called zygote after entering it as com.a |
| Tracker.ThreadLeaves | crates/core/src/tracker.rs:163-167 | removing a thread changes nothing but that it is treated no more |
| Tracker.LookupMeaning | crates/core/src/tracker.rs:29-37 | a name less than 60 s old is taken from the cache; any other is read, and cached from then on |
| Tracker.EnterTwice | crates/core/src/engine.rs:149-196 | the second entry of a scan finds the process unchanged, whatever the kernel answers then |
| Engine.RefreshProcessRules | crates/core/src/engine.rs:136-199 | the scan loop treats every listed thread in order, and takes out and puts back the name cache without losing an update |
| Engine.ApplySingleTid | crates/core/src/engine.rs:202-254 | a known thread is left alone; any outcome but Exited marks it; only a counted outcome registers its directory |
| Engine.HandleEvent | crates/core/src/engine.rs:44-124 | the dispatch on event kinds, whose results are stated by the Meaning lemmas that follow |
| EngineLaws.ExitMeaning | crates/core/src/engine.rs:54-63 | a process that ends is not tracked any more, and gives back what it alone held |
| EngineLaws.ThreadExitMeaning | crates/core/src/engine.rs:57-59 | a thread that ends is treated no more, and nothing else changes |
| EngineLaws.DisinterestMeaning | crates/core/src/engine.rs:76-84 | a process whose package the rules do not care about leaves the same way |
| EngineLaws.NothingHappens | crates/core/src/engine.rs:64-75 | a migration, or an event without a package name, changes nothing |
| EngineLaws.ForkMeaning | crates/core/src/engine.rs:98-104 | a Fork enters and rescans the process, and counts the applications |
| EngineLaws.ExecMeaning | crates/core/src/engine.rs:87-97 | an Exec first gives back what the old image alone held, then enters and rescans |
| EngineLaws.CloneMeaning | crates/core/src/engine.rs:105-120 | a thread clone adds the one thread if the process was scanned less than 2 s ago, and rescans otherwise |
| EngineLaws.RescanMeaning | crates/core/src/engine.rs:127-199 | a rescan: exactly the listed threads are treated; for each, in order, the policy resolved for its name (cached for 60 s, read otherwise, empty without thread rules) is applied and recorded; the process holds the directories of before and of the counted threads; the count is theirs; the names are cached |
| EngineLaws.AddMeaning | crates/core/src/engine.rs:202-254 | a single thread: left alone if treated; else its policy is applied, and it is treated unless gone; only a counted one brings its directory |
| EngineLaws.BatchMeaning | crates/core/src/engine.rs:28-42 | two batches one after the other are one batch, and the counts add up |
| EngineLaws.OneEvent | crates/core/src/engine.rs:28-42 | a batch of one event is that event |
| Engine.HandleEvents | crates/core/src/engine.rs:28-42 | a batch handles its events in order and adds up the applications |
| Engine.RelockAll | crates/core/src/engine.rs:300-356 | every process tracked at the start is visited exactly once, in some order: dead ones are removed, gated ones skipped, the others rescanned |
| EngineLaws.VisitMeaning | crates/core/src/engine.rs:315-354 | one visit: a dead process leaves, one held back is left alone, any other is rescanned without noting a full scan |
| EngineLaws.RelockMeaning | crates/core/src/engine.rs:300-356 | after a relock exactly the living are tracked, those held back as they were |
| Engine.CleanupDead | crates/core/src/engine.rs:359-368 | exactly the living processes stay; the count is the number removed |
| Engine.EventInv | crates/core/src/engine.rs:44-124 | every event keeps the laws whatever the kernel answers |
| Engine.RelockInv | crates/core/src/engine.rs:300-356 | every relock keeps the laws in every visiting order |
| Engine.RunInv | crates/core/src/engine.rs:28-368 | in every run of event batches, relocks, cleanups and reloads, with any rules and any answers: counts equal holders, no zero or empty name is counted, rmdir gets only unheld directories, the ensure cache is truthful, every affinity mask is non-empty |
| Engine.CacheIsRight | crates/core/src/backend.rs:89-103 | in every run in which mkdir does not fail, every early return inside every step found the directory there, and at the end every name in the cache exists |
| Engine.HeldDirsExist | crates/core/src/backend.rs:89-103 | with cpusets in use, in every run in which mkdir does not fail, every directory a tracked process holds exists |
| Reclaim.UnheldIsExcused | crates/core/src/tracker.rs:178-202 | at the end of every run, a directory that was ensured and that no tracked process holds is explained: since it was last removed, a thread it was made for was gone or had no usable CPU, or rmdir refused it |
| Reclaim.RunAccounted | crates/core/src/engine.rs:28-368 | every step of every run keeps that account, with counted directories in place of held ones |
| Reclaim.ExitedLeavesDir | crates/core/src/engine.rs:232-237 | whenever a new thread is gone after its directory was made, which was neither cached, counted nor held, the directory stays on disk and in the cache with no count, and the end of the process does not reclaim it |
| Reclaim.ThreadGone | crates/core/src/engine.rs:232-237 | a concrete app and thread for which this happens |
| Engine.AppliedAtMostOnce | crates/core/src/engine.rs:201-254 | along every run of event batches, relocks, cleanups and reloads that does not rescan the process, nor end it or the thread, a thread has a policy applied alive at most once, and none attempted once it counts as applied; other processes may do anything |
| Engine.OtherEvent | crates/core/src/engine.rs:44-124 | no event of another process, not even its full rescan, changes whether a thread counts as applied or applies a policy to it |
| Engine.EventFrame | crates/core/src/engine.rs:44-124 | an event changes no process but its own |
| Engine.ExecStartsAfresh | crates/core/src/engine.rs:87-97 | after an Exec the process is known under its new package and holds only the directories of the new scan |
| Engine.FullScanTreats | crates/core/src/engine.rs:189-196 | after a full scan the applied threads are exactly the listed ones, and the name cache holds only those |
| Relock.AdaptiveRelock.FromInitial | crates/core/src/relock.rs:148-160 | starts at the interval nearest to the configured one, the shorter of two equally near: 3 s up to 6, 10 s up to 35, 60 s up to 180, then 300 s |
| Relock.AdaptiveRelock.Observe | crates/core/src/relock.rs:168-197 | the older entry point: counts as stable only a full window without any cover |
| Relock.FlagMeaning | crates/core/src/relock.rs:168-197 | it agrees with feeding ratio 1 for cover and 0 for none, except that some cover on less than half of a full window resets the stable time |
| Relock.AdaptiveRelock.ObserveRatio | crates/core/src/relock.rs:207-235 | nothing moves before 15 samples; at half of the window or more the rank falls; otherwise only a ratio of exactly 0 adds to the stable time, which lengthens at 60 s, and anything else resets it |
| Relock.Budget | crates/core/src/relock.rs:207-235 | along any run each lengthening is paid for by 30 calls, and each shortening undoes a lengthening or uses up a starting rank |
| Relock.NoOscillation | crates/core/src/relock.rs:125-131 | n calls lengthen the interval at most n/30 times and shorten it at most n/30 + 3 times |
| Relock.LengtheningIsEarned | crates/core/src/relock.rs:222-230 | a lengthening closes 30 consecutive calls of ratio exactly 0, and the rank did not change in the 29 before it |
| Relock.ShorteningIsEarned | crates/core/src/relock.rs:217-220 | a shortening has at least 8 of the last 15 ratios at one half or more |
| Relock.WindowIsLast | crates/core/src/relock.rs:207-215 | the window is exactly the last 15 samples of the whole run |
| Relock.ConvergesToShortest | crates/core/src/relock.rs:207-220 | from any state, 17 calls of ratio one half or more lead to 3 s |
| Relock.ShortestIsExact | crates/core/src/relock.rs:207-220 | from a new controller at 300 s it takes exactly 17 |
| Relock.ConvergesToLongest | crates/core/src/relock.rs:207-235 | from any state, 104 calls of ratio 0 lead to 300 s |
| Relock.LongestIsExact | crates/core/src/relock.rs:207-235 | from a new controller at 3 s it takes exactly 104 |
| Relock.PartialCover | crates/core/src/relock.rs:199-235 | ratios strictly between 0 and one half never move the interval when fed as ratios, but drive the older entry point exactly like a run without any cover |
| Observe.SnapshotWindow.PushBatch | crates/core/src/observe.rs:87-126 | after any batch every thread's statistics and recent samples are functions of its whole sample history since it was last dropped: counts, migrations between adjacent known CPUs, affinity changes, per-CPU counts, maximum load, the last 150 samples |
| Observe.MigrationsMeaning | crates/core/src/observe.rs:110-117 | migrations are the samples taken on another CPU than the one before, both known |
| Observe.AffinityMeaning | crates/core/src/observe.rs:118-120 | affinity changes are the samples whose affinity text differs from the one before |
| Observe.SamplesMeaning | crates/core/src/observe.rs:104-106 | the count of a CPU is the number of samples taken on it |
| Observe.MaxMeaning | crates/core/src/observe.rs:101-103 | the maximum load is attained and never exceeded |
| Observe.RecentMeaning | crates/core/src/observe.rs:122-125 | the recent entries are those of the last 150 samples, in order |
| Observe.SnapshotWindow.Retain | crates/core/src/observe.rs:147-150 | exactly the histories of the living threads remain |
| Observe.ComputePrimary | crates/core/src/observe.rs:55-61 | the primary CPU has the greatest count; none exactly when no CPU was seen |
| Observe.AverageAccounts | crates/core/src/observe.rs:98-102 | average times samples plus what truncation dropped at each step is the sum of the loads |
| Observe.AverageIsLowerBound | crates/core/src/observe.rs:98-100 | the average never exceeds the mean |
| Observe.ExactThroughout | crates/core/src/observe.rs:98-100 | the average is exact all along a history exactly when the rests of the true means (sum of loads modulo number of samples) never shrink |
| Observe.ExactLengths | crates/core/src/observe.rs:98-100 | all histories of a length have an exact average exactly up to length two |
| Observe.Shortfall | crates/core/src/observe.rs:98-100 | average times n falls short of the sum of n loads by at most n(n-1)/2 |
| Observe.RisingLoads | crates/core/src/observe.rs:98-100 | the loads 0, 1, .., n - 1 attain that bound: their running average is 0 |
| Observe.AverageCanFallShort | crates/core/src/observe.rs:98-102 | loads 1, 0, 2 average to 0 while their mean is 1 |
| Observe.StatsBounds | crates/core/src/observe.rs:87-126 | migrations stay below the known samples, affinity changes below all samples, the average below the maximum |
| KernelFilter.DedupMap.ShouldDedup | crates/ebpf/src/main.rs:84-115 | decides from that process's entry alone and changes no other entry |
| KernelFilter.Independent | crates/ebpf/src/main.rs:84-115 | in any interleaving a process's entry is what its own events alone would have made it |
| KernelFilter.AtMostTwoPerWindow | crates/ebpf/src/main.rs:84-115 | of the events that pass, the second after one that opens a window comes at least 0.1 s later, and the third after any comes at least 0.1 s later |
| KernelFilter.AtMostThreeAnywhere | crates/ebpf/src/main.rs:84-115 | at most three events of a process pass in any half-open 0.1 s |
| KernelFilter.ThreeCanPass | crates/ebpf/src/main.rs:84-115 | three do pass within one 0.1 s in a run that starts cleanly |
| KernelFilter.DroppedAfterTwo | crates/ebpf/src/main.rs:84-115 | an event is dropped only if two passed within the last 0.1 s |
| KernelFilter.BootBurst | crates/ebpf/src/main.rs:84-115 | for every first event earlier than 0.1 s after boot, four can pass within 0.1 s: the clean-start condition is needed |
| KernelFilter.TargetEntries | crates/daemon/src/ebpf_source.rs:218-239 | the keys loaded are the first-8 and last-8 keys of the packages, each once |
| KernelFilter.CommMatches | crates/ebpf/src/main.rs:121-140 | the sliding loop answers true exactly when one of the nine 8-byte windows of the name is a key |
| KernelFilter.HitMeaning | crates/ebpf/src/main.rs:121-140 | a name is let through exactly when it contains a first-8 or last-8 key of some package |
| KernelFilter.NoFalseNegatives | crates/daemon/src/ebpf_source.rs:218-239 | every configured package name cut to its first or its last 15 bytes is let through |
| KernelFilter.FrontExact | crates/daemon/src/ebpf_source.rs:218-239 | of the names that begin with the text before the first wildcard of a configured package, all are let through if cut to their first 15 bytes exactly if this text has at least 8 bytes, whatever else is configured, provided some byte is unused |
| KernelFilter.BackMissed | crates/daemon/src/ebpf_source.rs:218-239 | and some is missed if cut to its last 15 bytes, whatever this text |
| KernelFilter.OneTextExact | crates/daemon/src/ebpf_source.rs:218-239 | both, for one configured text below 128 bytes without any proviso |
| KernelFilter.StarExact | crates/daemon/src/ebpf_source.rs:218-239 | of the names a pattern with one star matches, all are let through if cut to their first bytes exactly if at least 8 bytes precede the star, and if cut to their last bytes exactly if at least 8 follow it, or 7 that with a zero after them are a key |
| KernelFilter.ShortPrefixMissed | crates/daemon/src/ebpf_source.rs:218-239 | with `com.*` configured, com.example.app is missed whichever end is kept |
| KernelFilter.KeysFit | crates/daemon/src/ebpf_source.rs:92-95 | at load, the keys of the packages loaded with never outnumber the map capacity computed from them |
| KernelFilter.CapacityMeaning | crates/daemon/src/ebpf_source.rs:92-95 | the capacity is the least power of two that is at least 64 and holds two keys a package |
| KernelFilter.UpdateWhitelist | crates/daemon/src/ebpf_source.rs:242-265 | after a reload the map holds keys of the new packages only, within its capacity, and all of them exactly if they fit |
| KernelFilter.ReloadFits | crates/daemon/src/ebpf_source.rs:242-265 | a reload with no more packages than at load, or with at most 32, fits |
| KernelFilter.ReloadOverflows | crates/daemon/src/ebpf_source.rs:242-265 | loaded with one package the map has 64 places, while 33 packages that share no key need 66 |
| KernelFilter.WildcardMissed | crates/daemon/src/ebpf_source.rs:218-239 | the pattern `com.tencent.*` misses com.tencent.mobileqq cut to its last 15 bytes |
| Pending.ProcQueue.FlushPending | crates/daemon/src/proc_source.rs:59-94 | one pass emits Fork(p, pkg) exactly for each queued process that is due and alive with the non-empty name pkg of interest; it keeps what is not due as it is, and a due, living, nameless process exactly while it was put back fewer than three times, for 100, 300 and 1000 ms |
| Pending.ProcQueue.Enqueue | crates/daemon/src/proc_source.rs:135-162 | an untracked process that is not queued enters while fewer than 64 wait |
| Pending.EbpfQueue.HandleFork | crates/daemon/src/ebpf_source.rs:320-343 | a fork that the initial scan did not cover and that is not queued enters while fewer than 128 wait |
| Pending.EbpfQueue.FlushPending | crates/daemon/src/ebpf_source.rs:370-428 | the same for the kernel source; a thread whose group has another leader is emitted under the leader, with the leader's name and interest |
| Pending.EbpfQueue.InitialScan | crates/daemon/src/ebpf_source.rs:271-298 | each readable process of interest gives one event and is remembered, in the order listed |
| Pending.EbpfQueue.EndInitialWindow | crates/daemon/src/ebpf_source.rs:439-440 | after the first round of events no fork is skipped any more |
| Pending.EbpfQueue.OnConfigChanged | crates/daemon/src/ebpf_source.rs:464-468 | a new configuration empties the queue |
| Pending.KeptOk | crates/daemon/src/ebpf_source.rs:418-428 | a pass keeps process ids distinct, the queue within its cap and every retry count at most 3, so the back-off index stays in range |
| Pending.FlushSpends | crates/daemon/src/proc_source.rs:59-94 | every reading of a process in a pass costs one of its remaining readings, every event its place in the queue |
| Pending.RunLedger | crates/daemon/src/ebpf_source.rs:320-428 | along any run, readings plus remaining readings are at most four per entry, events plus places at most one per entry |
| Pending.ReadAtMostFourTimes | crates/daemon/src/ebpf_source.rs:320-428 | in every run a process is read at most four times, and gives at most one event, per time it was enqueued |
| Pending.ProcReadAtMostFourTimes | crates/daemon/src/proc_source.rs:59-162 | so in every run of the /proc source, whatever the kernel answers |
| Pending.EbpfReadAtMostFourTimes | crates/daemon/src/ebpf_source.rs:320-468 | and in every run of the eBPF source, new configurations included |

## Left out

- Reading and writing procfs and sysfs, system calls, and their errors: parameters with arbitrary values.
- KDL parsing, the configuration store and its file watcher, IPC, messages, logging and the audit trail.
- The configuration parser: the theorems from configuration to policy rely on its filing every app under its own package.
- The decision gate, profile tables and CPU cluster classification: the gate is an arbitrary answer per process, profiles and clusters are arbitrary inputs.
- RelockGuard, coverage sampling, the foreground and tuning modules: they would only add easy members.
- Attaching tasks to a cpuset, and the once-only warning sets: they change nothing the model speaks about.
- Process states, name caches, policies and, outside `cpu_bitmap.dfy`, CPU sets are values: the source owns or copies each of them, so there is no aliasing to lose. A word of the bitmap is 64 booleans, not a machine integer.
- The overflow panic of a debug build: pattern scores are modelled as a release build computes them.
- Case folding of cluster names beyond ASCII letters.
- The 32-bit width of reference counts: a count never exceeds the number of tracked processes.
- The order of the keys handed to the kernel map, failing map operations, eviction from the rate-limit map, and NUL bytes inside package names.
- Names cut by the kernel are given as bytes; how a running process's name was cut is not modelled.
- Relock.AdaptiveRelock.FromInitial: does not cover intervals of 2^63 seconds or more, where the cast to a signed integer wraps.
- Relock.AdaptiveRelock.ObserveRatio: ratios are real numbers, so NaN is not covered; the only quotients compared are k/15 with one half, where rounding decides nothing.
- The full process listing, thread differences and polling of the two event sources: only the queues and their guards are modelled.
- Concurrent reloads: steps happen one at a time, as in the daemon's main loop.
