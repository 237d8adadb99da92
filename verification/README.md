# Log processor core, modelled in Dafny

This project models the analytics engine of `process_log.py`, an
access-log processor that makes one pass over an Apache-style log. Each
line is a request from a host for a resource at some second, with a reply
code and a byte count. In that pass the processor keeps five
accumulations:

1. requests per host;
2. bytes per resource;
3. a run-length timeline of requests per second;
4. a block list that watches failed logins (reply `401`) per host;
5. optionally, bytes per host.

A host with three failed logins inside one 20-second burst window is
blocked for five minutes. Every request it sends while blocked is written
to the blocked-request log and skipped by the block-list logic and by
feature 5. It is still counted by features 1–3. After the pass, the
processor reports:

- the ten top hosts, resources and (optionally) bandwidth users, from a
  stable descending sort of each dictionary;
- the ten busiest one-hour windows, found by a two-pointer sliding sum
  over the timeline.

The model has six modules:

- `Ranking`: the stable descending sort and the top-k truncation. `TopK`
  keeps tied entries in their original order and is shown to be *the*
  stable sort (`SortDescIsTheStableSort`).
- `Tallies`: an insertion-ordered dictionary. Python dictionaries keep
  insertion order and ties in a top-10 follow it, so a `Tally` is a key
  list together with a map. `Accumulate` is the reference for a sequence
  of `d[k] = d.get(k, 0) + n` updates.
- `Timeline`: buckets `(second, count)`, and `Coalesce`, the per-request
  timeline update. `WindowCount` is the brute-force count of a closed
  window. Lemmas relate both to the raw request times.
- `BusiestHours`: `computeHours` as two loops over the bucket sequence,
  proved to produce `AllWindows`, the brute-force list of candidates. Also
  the properties of its top ten.
- `BlockList`: the per-host state machine `Screen` (clean, suspicious with
  a burst-window start and a failure count, or blocked since a second),
  with its rules as lemmas.
- `LogEngine`: the pass itself. `Scan` is the loop of `processLog`, over
  local dictionaries, lists and maps, with a `continue` for suppressed
  lines. Its invariants tie every accumulation to a reference function of
  the lines seen so far:
  - `Accumulate(HostCharges(..))` for features 1 and 2;
  - `Bucketed(TimesOf(..))` for feature 3;
  - `ScreenLog(..)` for features 4 and 5.

  `ProcessLog` adds the top-10 selections.

Times are whole seconds, so the source's `timedelta`s become the
constants 20, 300 and 3600. Reply codes are the strings the log holds.
The bytes field is `-` (counted as 0) or a number.

## Model

| member | source | states |
|---|---|---|
| Ranking.Insert | insight_testsuite/temp/src/process_log.py:140 | one entry more: the old entries plus the new one, which comes first or after the old first entry |
| Ranking.InsertSorted | insight_testsuite/temp/src/process_log.py:140 | inserting into a non-increasing list keeps it non-increasing |
| Ranking.InsertTies | insight_testsuite/temp/src/process_log.py:140 | the inserted entry goes in front of the entries with its score, and the other ties keep their order |
| Ranking.SortDesc | insight_testsuite/temp/src/process_log.py:140 | the sort with `reverse=True` is a permutation, is non-increasing and keeps every group of tied entries in input order (stability) |
| Ranking.TopK | insight_testsuite/temp/src/process_log.py:140 | `sorted(...)[0:10]` has `min(10, n)` entries, is non-increasing, takes its entries from the input, lists nothing below an entry it leaves out, and lists a prefix of each tie group in input order |
| Ranking.TopKFacts | insight_testsuite/temp/src/process_log.py:140 | a prefix of the stable sort has the selection properties listed for `TopK` |
| Ranking.TopKBound | insight_testsuite/temp/src/process_log.py:140 | a prefix of a non-increasing arrangement of the input is a sub-multiset, and nothing it leaves out outranks it |
| Ranking.WithScorePrefix | insight_testsuite/temp/src/process_log.py:140 | the ties of a prefix are a prefix of the ties |
| Ranking.StableSortUnique | insight_testsuite/temp/src/process_log.py:140 | two non-increasing lists with the same tie order are equal |
| Ranking.SortDescIsTheStableSort | insight_testsuite/temp/src/process_log.py:140 | any non-increasing arrangement that keeps the input's tie order is `SortDesc` of the input, so the model's sort is the stable one |
| Tallies.Tally.Add | insight_testsuite/temp/src/process_log.py:57 | `d[k] = d.get(k, 0) + n` raises `k` by `n` and leaves every other key alone; a new key goes to the end of the insertion order; the total grows by `n`; keys stay distinct |
| Tallies.Tally.Items | insight_testsuite/temp/src/process_log.py:152 | `d.items()` of a valid dictionary lists its keys in insertion order, each with its value and no item twice |
| Tallies.TopTen | insight_testsuite/temp/src/process_log.py:152 | the top ten of a dictionary: `min(10, size)` items, non-increasing, each a key with its value, no key listed twice, no key left out has a larger value than one listed, and the keys with equal values are a prefix of those keys in insertion order |
| Tallies.TopTenDistinct | insight_testsuite/temp/src/process_log.py:152 | an entry taken from `d.items()` is not listed twice |
| Tallies.AtMostOnce | insight_testsuite/temp/src/process_log.py:152 | in `d.items()` no entry occurs twice |
| Tallies.Accumulate | insight_testsuite/temp/src/process_log.py:57-60 | the dictionary after a sequence of charges holds, for every key, the sum of its charges, and its total is the sum of all charges (which keys it lists, and in what order: `Tallies.AccumulateKeys`) |
| Tallies.AccumulateKeys | insight_testsuite/temp/src/process_log.py:57-60 | the dictionary lists every charged key, even one charged only 0, and no other key, in the order of their first charges |
| Tallies.AccumulateKeysAre | insight_testsuite/temp/src/process_log.py:57-60 | the keys of the dictionary are the charged keys deduplicated at their first charge |
| Tallies.FirstChargesFacts | insight_testsuite/temp/src/process_log.py:57-60 | the deduplicated charged keys are exactly the charged keys, in the order of their first charges |
| Tallies.AccumulateSnoc | insight_testsuite/temp/src/process_log.py:57-60 | one more charge is one more `Add` |
| Tallies.KeySetMember | insight_testsuite/temp/src/process_log.py:57 | the keys of the map are exactly the keys in the insertion list |
| Tallies.DistinctApart | insight_testsuite/temp/src/process_log.py:57 | no key is listed twice |
| Timeline.Coalesce | insight_testsuite/temp/src/process_log.py:63-66 | one request at second `t` raises the total count by one and every window containing `t` by one. A repeated second only adds to the last bucket; any other second opens one bucket after the unchanged old ones. It keeps counts positive, neighbours distinct and times increasing |
| Timeline.Bucketed | insight_testsuite/temp/src/process_log.py:63-66 | the timeline of a non-empty log starts at the first request's second and ends at the last's, with no more buckets than requests |
| Timeline.BucketedCounts | insight_testsuite/temp/src/process_log.py:63-66 | the bucket counts sum to the number of requests, and every closed window counts exactly the requests whose time lies in it |
| Timeline.BucketedShape | insight_testsuite/temp/src/process_log.py:63-66 | no bucket is empty and no two neighbouring buckets share a second |
| Timeline.BucketedIncreasing | insight_testsuite/temp/src/process_log.py:63-66 | chronological request times give strictly increasing bucket times |
| Timeline.Apart | insight_testsuite/temp/src/process_log.py:126-139 | in an increasing timeline, buckets `k` places apart are at least `k` seconds apart |
| Timeline.WindowShift | insight_testsuite/temp/src/process_log.py:130-138 | shifting a window by one second loses the requests of its first second and gains those of the second after its end |
| Timeline.CountAtBucket | insight_testsuite/temp/src/process_log.py:132-137 | in an increasing timeline, a bucket's own second holds exactly its count |
| Timeline.WindowCountOutside | insight_testsuite/temp/src/process_log.py:126-139 | a window with no bucket in it counts nothing |
| Timeline.WindowCountPrefix | insight_testsuite/temp/src/process_log.py:126-128 | buckets after the window's end do not count |
| BusiestHours.WindowsCover | insight_testsuite/temp/src/process_log.py:129-139 | there are `last - first + 2` candidates, starting at consecutive seconds; the first is the opening window and the last is empty |
| BusiestHours.NoBucketAt | insight_testsuite/temp/src/process_log.py:132-137 | a second between two neighbouring buckets holds no request |
| BusiestHours.OpeningWindow | insight_testsuite/temp/src/process_log.py:120-128 | the first loop sums exactly the requests in `[first, first + 3600]`, and stops at the first bucket after it |
| BusiestHours.Slide | insight_testsuite/temp/src/process_log.py:130-138 | moving the window one second, at most the bucket under the right cursor enters and at most the one under the left cursor leaves. The sum is corrected by their counts and the cursor invariants are kept |
| BusiestHours.SlidingWindows | insight_testsuite/temp/src/process_log.py:120-139 | the two loops produce exactly the brute-force candidate list: each `(sum, left)` has `sum` equal to the requests in `[left, left + 3600]` |
| BusiestHours.WindowsComplete | insight_testsuite/temp/src/process_log.py:129-139 | a list with the right length and the right window at each place is the candidate list |
| BusiestHours.ComputeHours | insight_testsuite/temp/src/process_log.py:105-140 | `computeHours` returns the top ten of the brute-force candidate list |
| BusiestHours.InsertEarlierFirst | insight_testsuite/temp/src/process_log.py:140 | inserting a window that starts before all others keeps the earlier window first in every tie |
| BusiestHours.SortDescEarlierFirst | insight_testsuite/temp/src/process_log.py:140 | sorting windows generated in start order lists, in every tie, the earlier window first |
| Ranking.WithScoreMember | insight_testsuite/temp/src/process_log.py:140 | the tie group of score `v` holds exactly the entries with score `v` |
| BusiestHours.WithScoreStartsIncrease | insight_testsuite/temp/src/process_log.py:140 | a tie group of windows in start order stays in start order |
| BusiestHours.LeftOutTieStartsLater | insight_testsuite/temp/src/process_log.py:140 | a window left out that ties with a listed one starts later |
| BusiestHours.ListedAreCandidates | insight_testsuite/temp/src/process_log.py:140 | every listed window is a candidate window with its true count |
| BusiestHours.TopHours | insight_testsuite/temp/src/process_log.py:140 | the ten busiest hours: `min(10, last - first + 2)` windows, non-increasing, earlier first on ties, each a true window, and no window left out is busier (nor as busy and earlier) |
| BusiestHours.TopKEarlierFirst | insight_testsuite/temp/src/process_log.py:140 | the top ten of windows in start order list the earlier window first in each tie |
| BusiestHours.TopKLeftOut | insight_testsuite/temp/src/process_log.py:140 | no window left out of the top ten outranks a listed one |
| BusiestHours.BusiestHoursOfLog | insight_testsuite/temp/src/process_log.py:63-66 | read off the raw times of a chronological log, each listed hour scores exactly the requests in its closed hour; the list is sorted with earlier hours first in ties |
| BusiestHours.ClosedHour | insight_testsuite/temp/src/process_log.py:121-128 | the hour is closed at both ends: a request 3600 seconds after the first falls in the first window |
| BlockList.Respond | insight_testsuite/temp/src/process_log.py:74-90 | the tracker logic keeps a tracker at one or two failures. It blocks only on a 401, at that second; a 200 drops the tracker or changes nothing; other replies change nothing |
| BlockList.Screen | insight_testsuite/temp/src/process_log.py:68-90 | a suppressed request leaves the host's state unchanged, and well-formed states stay well-formed |
| BlockList.BlockedOnThirdStrike | insight_testsuite/temp/src/process_log.py:82-84 | a request leaves its host blocked exactly when it is the third 401 inside the burst window, and the block starts at its second |
| BlockList.FailureInBurst | insight_testsuite/temp/src/process_log.py:74-86 | a first 401 opens a tracker `(t, 1)`. A 401 at most 20 seconds after the window start turns one failure into two (inclusive boundary). A later 401 restarts the tracker at `(t, 1)`, whether it held one failure or two, and lets the request through |
| BlockList.SuccessInBurst | insight_testsuite/temp/src/process_log.py:87-90 | a 200 at most 20 seconds after the window start drops the tracker; a later one leaves it |
| BlockList.SuppressIff | insight_testsuite/temp/src/process_log.py:68-71 | a request is set aside exactly when its host was blocked at most 300 seconds before, boundary included |
| BlockList.ExpiredBlockForgotten | insight_testsuite/temp/src/process_log.py:72-73 | after the five minutes the block is deleted and the host answers as a clean host |
| BlockList.Trace | insight_testsuite/temp/src/process_log.py:68-90 | one outcome per request of a host; well-formed states stay well-formed throughout |
| BlockList.TraceEndsAfter | insight_testsuite/temp/src/process_log.py:68-90 | the last outcome of a host's trace is the state its requests lead to |
| BlockList.AfterSnoc | insight_testsuite/temp/src/process_log.py:68-90 | a further request moves the host on from where its earlier requests left it |
| BlockList.ThreeStrikes | insight_testsuite/temp/src/process_log.py:74-86 | three 401s from a clean host within 20 seconds of the first go clean to one failure, to two, to blocked at the third |
| BlockList.BlockHolds | insight_testsuite/temp/src/process_log.py:68-71 | every request of a blocked host inside the five minutes is set aside and keeps the block |
| BlockList.BlockScenario | insight_testsuite/temp/src/process_log.py:68-90 | 401s at `T`, `T+5` and `T+10` block at `T+10`, and a 200 at `T+11` is set aside |
| LogEngine.Record | insight_testsuite/temp/src/process_log.py:62-66 | the deque update on the first line or on a new second appends `[dt, 1]`, otherwise increments the last bucket: it is `Coalesce` |
| LogEngine.Track | insight_testsuite/temp/src/process_log.py:74-90 | the updates to the tracker and blocked maps move the host's state as `Respond` does, leave every other host alone, and never list a host in both maps |
| LogEngine.Screening | insight_testsuite/temp/src/process_log.py:68-90 | the decision and the new maps are `Screen` of the host's state read off the maps; other hosts are unchanged and no host is in both maps |
| LogEngine.ScreenStep | insight_testsuite/temp/src/process_log.py:68-90 | one request through the block list sets its line aside or lets it through, changes only its own host's state, and keeps every state well-formed |
| LogEngine.ScreenLog | insight_testsuite/temp/src/process_log.py:56-94 | every line of the log is either set aside or let through, and every host's state is well-formed (tracker counts 1 or 2) |
| LogEngine.ScreenLogPerHost | insight_testsuite/temp/src/process_log.py:68-90 | each host is handled on its own: its state after the log is what its own requests lead to from a clean start |
| LogEngine.LineSetAside | insight_testsuite/temp/src/process_log.py:68-94 | a line is appended to the blocked log exactly when its host's earlier requests left it blocked at most 300 seconds before; such a line adds no bandwidth, and any other adds its bytes to its host |
| LogEngine.TrackersHoldOneOrTwo | insight_testsuite/temp/src/process_log.py:74-86 | while the maps mirror the block list, every tracker holds one or two failures |
| LogEngine.MirrorStep | insight_testsuite/temp/src/process_log.py:68-94 | a map update that moves one host as `Screen` does keeps the maps mirroring the block list, and the decision on the maps is the block list's |
| LogEngine.BytesOf | insight_testsuite/temp/src/process_log.py:51-54 | a `-` counts as 0 bytes and a number as itself; the count is 0 exactly for `-` or 0 |
| LogEngine.TimesOf | insight_testsuite/temp/src/process_log.py:48 | the request seconds, one per line, in order |
| LogEngine.HostTally | insight_testsuite/temp/src/process_log.py:56-57 | every line counts once for its host, whether it is set aside or not; the counts total the number of lines |
| LogEngine.ResourceTally | insight_testsuite/temp/src/process_log.py:59-60 | every line adds its bytes (`-` as 0) to its resource, whether it is set aside or not |
| LogEngine.LogStep | insight_testsuite/temp/src/process_log.py:56-94 | each accumulation over one more line is the one-step update of the accumulation over the lines before |
| LogEngine.Scan | insight_testsuite/temp/src/process_log.py:56-94 | the loop leaves feature 1 and 2 dictionaries equal to the accumulated charges of all lines, the timeline equal to the bucketed times, the blocked log equal to the lines the block list sets aside, and the bandwidth dictionary equal to the bytes of the lines it lets through (or empty when not asked for). The invariants keep the tracker and blocked maps disjoint, with trackers at one or two failures |
| LogEngine.ProcessLog | insight_testsuite/temp/src/process_log.py:97-102 | the report holds the top ten of the host and resource dictionaries, `computeHours` of the timeline, the blocked lines and, when asked for, the top ten of the bandwidth dictionary |

## Left out

- Reading the log file, the regular-expression parse and `strptime` of
  each line (`process_log.py` lines 42–50). The model takes parsed
  requests with the time as an integer second. A line that does not match
  makes the parse raise; the model has no such lines.
- The bytes field: the pattern also admits a negative number, which
  `int()` would accept. The model's bytes are `-` or a natural number.
- Time zones and `datetime` arithmetic: times are absolute integer
  seconds.
- Writing the output files and formatting times with `strftime` (lines
  97–103 and 143–183). `ProcessLog` returns the selections the files are
  written from.
- The command line, the `iconv` re-encoding and the file removal (lines
  185–202).
- LogEngine.ProcessLog: requires a non-empty log. On an empty log
  `computeHours` raises at `second_list[0]` (line 120), so the model gives
  that case no result.
- LogEngine.ProcessLog: requires chronological input. The sliding window
  needs increasing bucket times, and the program assumes a time-ordered
  log.
- BusiestHours.ComputeHours: the bucket deque is modelled as a sequence,
  which `computeHours` only reads.
- BusiestHours.ClosedHour: the window `[left, left + 3600]` is closed at
  both ends (lines 126 and 136), so a log with one request per second
  scores 3601 in its first hour. `ClosedHour` proves the closed end.
