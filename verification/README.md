# Proofs about the labeling server

A Dafny model of the parts of the server whose behaviour is hardest to see from
the code, and proofs of what they promise. `dafny verify dfyconfig.toml` checks
all of it.

* **Matching boxes** (`GreedyMatching`, `MatchingOrder`, `MatchingParts`,
  `GoldScore`, `ModelTrials`, `TrialSummaries`, `SummaryRows`). Reference and
  answer boxes are paired greedily, highest overlap first. That leaves one possible
  list of matches, which reaches half of the best and falls apart by label type,
  and its counts account for every box of a trial's summary.
* **Linking detections** (`LinkTracks`, `LinkStability`, `LinkTargets`,
  `OpenTracks`, `Linker`, `LinkGaps`, `TrialTracks`). Detections become tracks
  frame by frame. The linker that drops ended tracks in place gives the groups of
  one that keeps them all; those groups partition the detections, are real tracks,
  leave no two detections that would rather be joined to each other, and one
  target's tracks do not depend on the others. A trial's boxes each get one track
  number.
* **Planning a dataset** (`Taxonomy`, `FrameSelection`, `FrameChecks`,
  `FrameRules`, `SplitChoice`, `SplitGuarantees`, `SplitRules`, `SplitAssignment`,
  `ExportTotals`, `ExportPlan`, `PlanRules`, `ExportBuild`). Which frames are
  exported, the one split each video goes to, and that every total adds up.
* **Proposals and edits** (`BoxEvents`, `AnnotationTables`, `RequestRules`,
  `WriteRules`, `ProposalCounts`, `TableShape`, `AnnotationLedger`, `EmptyFrames`,
  `AnnotationService`). Every labeling request and model write as one transaction
  over the tables: when it fails, what it changes and nothing else. Over any run
  each proposal is open, decided in exactly one event, or withdrawn by a model.
* **Clips and the trash** (`ClipChunks`, `ClipLengths`, `ClipNumbers`,
  `ClipRules`, `ClipRuns`, `ClipTable`). Cutting a video into clips, and
  renumbering them row by row under a unique index when clips go to the trash and
  come back.
* **Two small classes** (`LogHistory`, `LogBuffer`; `FailureHistory`,
  `FailureRate`, `FailureCalls`, `FailureLimiter`). The log ring is the newest
  part of an ever-growing log, and the sign-in limiter is a history per key with
  a bound on its rate.

`Sequences`, `StableSorting`, `Remainders` and `Geometry` hold what these share:
filtering and mapping, a stable sort with its full specification, remainders, and
overlap in exact arithmetic.

Code that changes state step by step is modelled by methods and classes, each
proved equal to a function of the old state; the theorems are about those
functions. Numbers are unbounded and coordinates are reals. Box ids, label types
and users are natural numbers. A request is one transaction: it happens whole or
not at all.

## Where code and comments differ

The model follows the code. Each comment below holds only under a condition, which
is proved for all inputs.

* The linker's comment speaks of a last box "at most linkMaxGap frames back"
  (`api/internal/pipeline/link.go:70-94`). The code joins boxes up to
  `linkMaxGap + 1` frames apart, so that a track may miss `linkMaxGap` frames
  (`LinkGaps.GapIsBridged`). Tracks keep to the comment, whatever the boxes and
  targets, exactly when no two detections are `linkMaxGap + 1` frames apart
  (`LinkGaps.LinkerKeepsGap`); two such detections join exactly when they share a
  target and overlap enough (`LinkGaps.LinkedPair`).
* `chunkClips` speaks of clips of 10 to 20 seconds
  (`api/internal/ingest/clips.go:15-34`). The last clip can be shorter in a video
  of any length: 22 seconds are cut into 15 and 7 (`ClipLengths.ShortLastClip`).
  With 10 and 20 seconds as two and four of the shortest clips, the range is kept
  exactly when the frames left over after whole clips are none, make 10 seconds by
  themselves, or are few enough to be merged into a whole clip
  (`ClipLengths.ClipsInRange`).
* `List` of the log ring returns "up to limit" records
  (`api/internal/logs/buffer.go:58-80`). A limit of zero or less is never reached
  and limits nothing: the limit is kept exactly when it is above zero
  (`LogHistory.LimitIsKept`).

Two more properties one might expect hold only under a condition. Numbering clips
without parking them first clashes in some row order exactly when one clip's new
number is another's present one (`ClipNumbers.NumberingClashes`, with
`ClipNumbers.TrashingNeedsParking`). And a frame marked empty can get a box: no
labeling request or pre-label puts one there, but a tracker's report or an exemplar
search does, exactly when it writes to one (`EmptyFrames.StepBare` for every step,
`EmptyFrames.ReportLandsOnEmpty` for a report after any run, with
`EmptyFrames.ProposalOnEmptyFrame`).

## Model

| member | source | states |
|---|---|---|
| Geometry.Iou | api/internal/gold/score.go:45-53 | Overlap of any two boxes lies between 0 and 1 and is never divided by zero |
| Geometry.OverlapIsShared | api/internal/gold/score.go:46-47 | The sides of the intersection are those of the points both boxes cover |
| Geometry.IouTells | api/internal/gold/score.go:45-53 | Overlap times the area either box covers is the area both cover, and it is zero for boxes that at most touch |
| Geometry.IouOfInner | api/internal/gold/score.go:45-53 | A box inside another overlaps it by the ratio of their areas |
| Geometry.IouOfShifted | api/internal/gold/score.go:45-53 | A box moved sideways by d of its width w overlaps itself by (w-d)/(w+d) |
| Geometry.IouOfLifted | api/internal/gold/score.go:45-53 | The same for one moved up or down |
| Geometry.OverlapPositive | api/internal/gold/score.go:46-52 | A positive intersection is no larger than either box, whatever the sides are, so the union is positive |
| Geometry.IouSymmetric | api/internal/gold/score.go:45-53 | Overlap does not depend on the order of the boxes |
| Geometry.IouComplete | api/internal/gold/score.go:45-53 | Two boxes with area overlap completely exactly when they are the same box |
| StableSorting.SortOrdered | api/internal/gold/score.go:86 | The sort leaves no pair out of order |
| StableSorting.SortRanks | api/internal/gold/score.go:86 | How tied elements were related before sorting they are after it |
| StableSorting.SortUnique | api/internal/gold/score.go:86 | A list that is ordered and keeps each group of ties in its order is the sorted one, so which stable algorithm runs does not matter |
| GreedyMatching.GreedyStable | api/internal/gold/score.go:86-102 | What the scan takes is one-to-one, and each candidate it passes over shares a box with a taken pair at least as heavy; nothing else is taken |
| GreedyMatching.GreedyIsHalfOptimal | api/internal/gold/score.go:86-102 | For any value that grows with weight, the scan keeps at least half of what any one-to-one choice of the candidates has |
| MatchingOrder.GreedyInTurn | api/internal/gold/score.go:86-102 | What the scan takes comes in order of weight and then as listed, and each candidate it passes over shares a box with one taken that comes before it |
| MatchingOrder.InTurnIsGreedy | api/internal/gold/score.go:86-102 | Any choice of candidates like that is the one the scan makes |
| MatchingParts.GreedyFilter | api/internal/gold/score.go:86-102 | When two kinds of pairs never share a box, matching one kind alone gives its part of matching both |
| MatchingParts.GreedyRename | api/internal/gold/score.go:86-102 | The matching does not depend on how boxes are numbered |
| GoldScore.CollectPairs | api/internal/gold/score.go:75-85 | The pairs found are exactly the same-type pairs overlapping enough, in row order |
| GoldScore.TakePairs | api/internal/gold/score.go:88-102 | The scan with two arrays of used flags takes the greedy matching and counts its correct pairs and overlap |
| GoldScore.Score | api/internal/gold/score.go:74-111 | For every pair of lists: the matches are the one list described by MatchedIff, and the count, sum and score are theirs as OutcomeIsScored says |
| GoldScore.MatchedIff | api/internal/gold/score.go:74-102 | A list is the matches exactly when each is a same-type pair overlapping by at least one half, with that overlap, correct exactly from three quarters and with agreeing attributes; no box is in two; larger overlaps come first and ties as listed; and each such pair not in it shares a box with a match ahead of it |
| GoldScore.OutcomeIsScored | api/internal/gold/score.go:88-111 | The count is that of the correct matches, the sum that of their overlaps, and score times the boxes on both sides, matched ones once, is the count; it is 1 without boxes |
| GoldScore.PairingIsStable | api/internal/gold/score.go:75-102 | Matches are one-to-one, of one type and at least 0.5; every such pair left out is blocked by a match sharing a box at least as good |
| GoldScore.ScoreIsHalfOptimal | api/internal/gold/score.go:74-102 | The overlap sum and the number of matches are each at least half those of any one-to-one choice of eligible pairs |
| GoldScore.ScoreIsFraction | api/internal/gold/score.go:104-110 | The score lies in 0 to 1 and is 1 exactly when every box on both sides is matched and correct |
| GoldScore.MatchesOfType | api/internal/gold/score.go:74-102 | Scoring one type alone gives, re-indexed, exactly the matches and judgements scoring all types gives for it |
| GoldScore.ScoreSame | api/internal/gold/score.go:56-58 | Scoring with equal attributes gives the specified result |
| GoldScore.ScoreSetAttributes | api/internal/gold/score.go:63-72 | So does scoring with only the attributes the reference sets |
| GoldScore.SameAttributesTell | api/internal/gold/score.go:56-58 | Attributes are the same exactly when they have the same values under the same names |
| GoldScore.SetAttributesTell | api/internal/gold/score.go:63-72 | Attributes agree exactly when laying those the reference sets over the answer's changes none |
| GoldScore.SetAttributesIsLenient | api/internal/gold/score.go:55-72 | Both rules match the same pairs, and the second never has fewer correct or a lower score |
| ModelTrials.TrialMatchesReliable | api/internal/pipeline/model_trials.go:363-364 | The matcher trials use is one-to-one within types and the same for a type alone or among others |
| ModelTrials.TallyConserves | api/internal/pipeline/model_trials.go:363-385 | Per type of a frame, matched and missed make its reference boxes, matched and extra its answer boxes, and correct is at most matched |
| ModelTrials.TallyTells | api/internal/pipeline/model_trials.go:363-385 | A type's tally is how many matches are of its reference boxes, how many of them are correct, and how many of its boxes on either side no match takes |
| ModelTrials.TallyOfTypeAlone | api/internal/pipeline/model_trials.go:363-415 | A type counts the same whether its boxes are scored alone or among all others |
| ModelTrials.FrameBumpsTally | api/internal/pipeline/model_trials.go:363-385 | The increments one frame makes add exactly its tally to each type, whatever the counters held |
| ModelTrials.Tallies.Score | api/internal/pipeline/model_trials.go:363-385 | The method with its flag arrays makes exactly those increments, in order, and no other change |
| TrialSummaries.FrameBoxes | api/internal/pipeline/model_trials.go:389-416 | Grouping gives each frame its boxes of the wanted type in row order, and fails exactly when an attribute of a kept row does not decode |
| TrialSummaries.RefBoxesTell | api/internal/pipeline/model_trials.go:389-416 | A frame's reference boxes are its rows of the wanted type, each with its own type, attributes and place |
| TrialSummaries.AnsBoxesTell | api/internal/pipeline/model_trials.go:389-416 | Its answer boxes are its rows that name one of the model's classes of the wanted type, with the type and attributes of the class |
| TrialSummaries.FilteredTally | api/internal/pipeline/model_trials.go:389-416 | Asking for one type shows the counts that type has among all, and nothing for the others |
| TrialSummaries.TrialFilteredTally | api/internal/pipeline/model_trials.go:363-415 | The same for the matcher trials use |
| TrialSummaries.SummaryOfType | api/internal/pipeline/model_trials.go:442-445 | Over any frames a type holds the sum of its frame tallies |
| TrialSummaries.FramesTallyConserves | api/internal/pipeline/model_trials.go:363-385 | Conservation summed over any number of frames |
| TrialSummaries.ListedOnce | api/internal/pipeline/model_trials.go:468-478 | Known types in their order, then deleted ones by id, list each counted type exactly once |
| TrialSummaries.ClassList | api/internal/pipeline/model_trials.go:457-480 | The method lists each counted type exactly once and sums all of them, kept or not |
| TrialSummaries.SummaryConserves | api/internal/pipeline/model_trials.go:442-480 | Listing every counted type once accounts for every box of the frames |
| SummaryRows.CountedIffSeen | api/internal/pipeline/model_trials.go:442-480 | A type is counted exactly when a done frame has a box of it on either side |
| SummaryRows.Summary | api/internal/pipeline/model_trials.go:421-453 | No summary without done frames, an error exactly when attributes do not decode, else a row with its name and its own count over the frames for exactly the types they have a box of, known ones in order and then deleted ones by id, and the sum of the rows, which accounts for every stored box |
| LinkTracks.StepIsStable | api/internal/pipeline/link.go:99-131 | Within a frame every eligible track and detection not joined are blocked by a join of one of them at least as good, so no detection starts a track while an eligible one stays free |
| LinkStability.StepPrefersOverlap | api/internal/pipeline/link.go:105-123 | A detection and a track of its target that ended one to linkMaxGap+1 frames before and overlaps it enough are joined, or one of them is joined to something that overlaps it at least as much, a tie going to the earlier detection and then to the earlier track |
| LinkTracks.StepKeeps | api/internal/pipeline/link.go:82-131 | One frame keeps the groups tracks that ended before the next frame, and adds exactly its detections |
| LinkTracks.LinkedIsPartition | api/internal/pipeline/link.go:73-134 | The groups hold every detection once; each is non-empty, of one target, with frames strictly later by at most the gap and consecutive overlap at least 0.3 |
| LinkTargets.StepOfTarget | api/internal/pipeline/link.go:99-131 | One frame does to a target's groups what it does when only that target's detections are there |
| LinkTargets.LinkedOfTarget | api/internal/pipeline/link.go:82-131 | Linking one target's detections alone gives exactly that target's tracks among all, in order, though dropping runs on other frames too |
| OpenTracks.PruneReflects | api/internal/pipeline/link.go:91-97 | Open tracks dropped now were out of range for good: the rest still stand for exactly the groups in range |
| OpenTracks.PairsAgree | api/internal/pipeline/link.go:105-114 | Pairing with open tracks finds the pairs that testing the gap of every group finds |
| OpenTracks.Prune | api/internal/pipeline/link.go:91-97 | Compacting keeps exactly the tracks in range, in order |
| Linker.JoinPairs | api/internal/pipeline/link.go:115-123 | Joining in the order of overlap, with tracks updated in place, extends the groups by the greedy matching |
| Linker.StartTracks | api/internal/pipeline/link.go:124-130 | Each detection left over starts a group and an open track, in frame order |
| Linker.LinkFrame | api/internal/pipeline/link.go:99-131 | One frame with open tracks changed in place gives the groups of the linker that drops nothing |
| LinkStability.LinkedIsSteady | api/internal/pipeline/link.go:73-134 | Over whole runs: of two detections that could follow each other, either the later one follows one it overlaps at least as much, or the earlier one is followed on that frame by one that overlaps it at least as much; and tracks are listed by their first detections |
| Linker.Link | api/internal/pipeline/link.go:73-134 | Dropping ended tracks is invisible: the groups are those of the linker that keeps every track. They hold every detection once, are tracks, are listed by their first detections, and leave no two detections that overlap more than what they are joined to |
| LinkGaps.LinkedPair | api/internal/pipeline/link.go:70-118 | Two detections are one track exactly when they share a target, overlap enough and are one to linkMaxGap+1 frames apart, in whatever order they are listed |
| LinkGaps.GapIsBridged | api/internal/pipeline/link.go:91-97 | The same box on frames 0 and linkMaxGap+1 is one track |
| LinkGaps.GapIsKept | api/internal/pipeline/link.go:70-97 | For any measure that some box overlaps itself enough by: tracks keep to linkMaxGap frames, whatever the boxes and targets, exactly when no two detections are linkMaxGap+1 frames apart |
| LinkGaps.LinkerKeepsGap | api/internal/pipeline/link.go:70-97 | The same for the linker's own measure, with nothing assumed |
| TrialTracks.Overlaps | api/internal/pipeline/link.go:57-61 | True exactly when some box overlaps by more than one half |
| TrialTracks.DropCovered | api/internal/pipeline/link.go:46-54 | Keeps, in order, exactly the detections that overlap no box already on their frame by more than one half |
| TrialTracks.TrialNumbersEveryBox | api/internal/pipeline/model_trials.go:233-239 | Every box gets exactly one track number, a positive one, and the number is that of the group the linker put it in |
| TrialTracks.NumberTrial | api/internal/pipeline/model_trials.go:218-247 | Every id is written with the number of the group its box is in |
| Taxonomy.ListClasses | api/internal/taxonomy/taxonomy.go:164-176 | The nested loops list the classes of the recursive definition |
| Taxonomy.WidenedIff | api/internal/taxonomy/taxonomy.go:166-173 | A class is listed after one more attribute exactly when it is a listed class with one of the options |
| Taxonomy.CompleteIsListed | api/internal/taxonomy/taxonomy.go:144-176 | The class name of complete values is one the type lists |
| Taxonomy.ListedIsComplete | api/internal/taxonomy/taxonomy.go:144-176 | With dash-free options and values, values whose class name is listed are complete |
| Taxonomy.TwoValues | api/internal/taxonomy/taxonomy.go:153-161 | A type with a size and a colour is named type-size-colour |
| Taxonomy.WidenedAt | api/internal/taxonomy/taxonomy.go:166-173 | One more attribute lists each class so far with every option before the next class |
| Taxonomy.ClassNamesDiffer | api/internal/taxonomy/taxonomy.go:54-72 | With names and options free of dashes, equal class names mean the same type and the same values |
| FrameSelection.EligibleBoxes | api/internal/export/plan.go:121-136 | An eligible frame's boxes are all confirmed and complete, and each exported class index names its type and values |
| FrameRules.VerdictTells | api/internal/export/plan.go:112-136 | A frame may be taken exactly when it is labeled and each of its boxes is confirmed and of a type that has its values among the options; if not, the first box that is not ready decides the reason |
| FrameRules.FindTypeIs | api/internal/export/plan.go:91-94 | A type id stands for the last label type with it |
| FrameRules.ClassIdIsLast | api/internal/export/plan.go:93-95 | A class name stands for the last place it is listed at |
| FrameRules.AllClassesAppend | api/internal/export/plan.go:91-96 | The classes are listed label type by label type |
| FrameSelection.FramesConserved | api/internal/export/plan.go:111-150 | Every frame is left out for one reason or exported |
| FrameSelection.SelectionExplained | api/internal/export/plan.go:138-149 | An eligible frame is skipped exactly when its rank is off the stride, dropped exactly when it is on the stride and within the distance of the frame exported last before it, else exported |
| FrameRules.FateTells | api/internal/export/plan.go:111-149 | The same of all frames, with the rank counted as the eligible frames before and the stride as its multiples |
| FrameRules.SelectedTells | api/internal/export/plan.go:138-150 | The images are the frames taken, in order, with the boxes of their check |
| FrameRules.DistanceCounts | api/internal/export/plan.go:143-148 | The distance of two hashes is how many bits differ |
| FrameRules.SkipsTell | api/internal/export/plan.go:111-150 | Each count of frames left out is of the frames with that fate |
| FrameSelection.TakenApart | api/internal/export/plan.go:143-148 | Consecutive exported frames of a video differ in more bits than the distance |
| FrameChecks.IndexTypes | api/internal/export/plan.go:87-96 | The two maps look up the last type with an id and the last class with a name |
| FrameChecks.CheckFrame | api/internal/export/plan.go:121-136 | The first box that is not ready settles the frame; otherwise its boxes are those of the definition |
| FrameChecks.SelectFrames | api/internal/export/plan.go:111-150 | The loop with its counters gives the selected images, their boxes and the skips |
| SplitAssignment.AssignSplits | api/internal/export/plan.go:221-272 | The assignment follows SplitRules: pinned and held-out videos are where they are, the others in train or val, in val exactly when the fill or the fallback takes them |
| SplitRules.AssignedFollows | api/internal/export/plan.go:221-272 | An unpinned video is in val exactly when it has images and they fit under the share after what is pinned there and what went first, larger videos first and by id among equals; or, if val would stay empty and two videos have images, when it is the last of those in turn |
| SplitRules.FollowsOneWay | api/internal/export/plan.go:221-272 | Only one assignment does that |
| SplitRules.ShareAdds | api/internal/export/plan.go:254 | Each image adds the fraction to the target |
| SplitAssignment.Fill | api/internal/export/plan.go:255-261 | The fill loop moves exactly the videos that fit in turn |
| SplitGuarantees.FillIsGreedy | api/internal/export/plan.go:221-261 | Before the fallback val holds what is pinned there or at most the target, and no unpinned video with images left in train still fits |
| SplitGuarantees.ValImages | api/internal/export/plan.go:228-261 | The images in val are those pinned there and those of the videos moved there |
| SplitGuarantees.FallbackIsSmallest | api/internal/export/plan.go:262-269 | The fallback moves one unpinned video with images, and none with images is smaller; it moves none only if there is none |
| SplitGuarantees.TrainHasImages | api/internal/export/plan.go:246-270 | With a share up to one half and no video pinned to val, train has images whenever a video that is not held out does |
| SplitGuarantees.ValHasImages | api/internal/export/plan.go:246-270 | With a positive share val has images whenever two videos that are not held out have some and one unpinned video does |
| ExportTotals.CountItem | api/internal/export/plan.go:181-207 | Counting one item keeps every total, per split, class, clip and video |
| ExportTotals.TotalsTell | api/internal/export/plan.go:176-203 | Per split the images, boxes and boxes of a class are those of the items in it |
| ExportTotals.NegativesTell | api/internal/export/plan.go:178-181 | Negative images are the items without boxes |
| ExportTotals.CoverTells | api/internal/export/plan.go:203-213 | A class's clips and videos are those with an item that shows it |
| ExportTotals.ClassesAddUp | api/internal/export/plan.go:190-203 | In every split the classes' boxes add up to the split's boxes |
| ExportBuild.Build | api/internal/export/plan.go:85-215 | The plan is the selected images of every video in its split, with the totals of exactly those: every item of a held-out video is in test and no other is, pinned videos' items are in their split, and the rest where the one assignment puts them |
| PlanRules.PlanIsPlaced | api/internal/export/plan.go:154-176 | Every item and every video's entry has the split assigned to the video |
| PlanRules.ItemsAreImages | api/internal/export/plan.go:109-176 | A video's items are the images chosen from its frames, in order, with their boxes |
| PlanRules.SkipsAddUp | api/internal/export/plan.go:111-150 | Each reason's count is the sum over the videos |
| ExportPlan.ExportConserved | api/internal/export/plan.go:109-213 | Unlabeled, unverified, incomplete, stride-skipped, duplicate-skipped and exported make all frames of the videos |
| ExportPlan.TotalsAddUp | api/internal/export/plan.go:164-213 | The splits' images are all items, and the splits' and the classes' boxes are all their boxes |
| ExportPlan.VideosAddUp | api/internal/export/plan.go:165-174 | The videos' images and boxes are all items and all their boxes |
| ExportPlan.OneSplitPerVideo | api/internal/export/plan.go:154-176 | Items of one video share one split |
| BoxEvents.InsertBoxEvents | api/internal/annotation/events.go:120-163 | Events are recorded exactly as EventsTell says, in order, and the refusal of each state that has one |
| BoxEvents.EditDecides | api/internal/annotation/events.go:37-49 | Setting or deleting decides each open proposal among the boxes once, and relabeling decides none |
| BoxEvents.EventsWellFormed | api/internal/annotation/events.go:120-150 | Every event names a labeler exactly when it is a correction, never the editor, so the table's check always passes |
| BoxEvents.EventsTell | api/internal/annotation/events.go:28-74 | For every kind exactly when it is recorded: edited when an open proposal is set and a coordinate moves by 1e-6 or more or a model's box stays under a changed class, accepted when it is set otherwise, rejected when it is deleted; added, moved, deleted and relabeled by whether the box is there and moves, on a frame someone else marked. The event names the box, its source and, for the last four, whose work it was |
| BoxEvents.EventsInOrder | api/internal/annotation/events.go:120-163 | Events and refusals come box by box, at most one of each |
| BoxEvents.DeletingRefuses | api/internal/annotation/events.go:84-90 | Deleting records exactly as many refusals as it rejects proposals of pre-labelers |
| BoxEvents.RefusalTells | api/internal/annotation/events.go:80-99 | A refusal is recorded exactly for an open proposal of a pre-labeler that is deleted, loses the class it was given, or moves so that at most half still overlaps, at the place it had |
| BoxEvents.KeptIsNotRefused | api/internal/annotation/events.go:94-97 | Keeping a box with area where it is never refuses it |
| RequestRules.ClampTells | api/internal/annotation/box.go:15-33 | A box is saved exactly when some box with both sides at least 0.001 is inside both it and the frame; a point is in the saved box exactly when it is in the drawn one and in the frame, and a box within the frame stays as drawn |
| RequestRules.ClippedOneWay | api/internal/annotation/box.go:15-33 | Only one box is like that |
| RequestRules.StatesAtTell | api/internal/db/box_events.sql.go:53-64 | For one frame the state read is of the track's box there, or bare if there is none, with the frame's status and marker and the track's type |
| RequestRules.StatesOfTrackTell | api/internal/db/box_events.sql.go:53-64 | For a track the states read are of all its boxes |
| RequestRules.SetTells | api/internal/annotation/service.go:245-280 | Setting a box fails exactly when too little of it is in the frame or track and frame are not of one live clip; after it the clipped box, verified and human, is the only one at its place, no other box, track or frame changes but an empty mark that is cleared, and the edit is noted |
| RequestRules.CreateTells | api/internal/annotation/service.go:92-142 | A new track gets the next number, the frame's clip and the type, and its box is saved the same way |
| RequestRules.UpdateTells | api/internal/annotation/service.go:144-206 | The track takes the new type, counts as class-edited if it was or the type or a value changes, and nothing else does |
| RequestRules.DeleteTells | api/internal/annotation/service.go:208-227 | The track and its boxes are gone and no others |
| RequestRules.RemoveBoxTells | api/internal/annotation/service.go:282-312 | The box is gone, and its track exactly when no box of it is left |
| RequestRules.CopyTells | api/internal/annotation/service.go:314-359 | Copies are added of exactly the boxes on the source frame that are not rejected, are asked for, and have none of their track on the target; they keep their place and are human and verified |
| RequestRules.MarkTells | api/internal/annotation/service.go:361-393 | The frame takes the status unless it is to be empty and has a box; who first gave a status keeps the credit; labeling accepts exactly the frame's open proposals, which keep place and source |
| RequestRules.MarkNotes | api/internal/db/box_events.sql.go:126-134 | Each proposal accepted that way leaves one event: edited for a model's box under a changed class, accepted otherwise |
| RequestRules.FollowTells | api/internal/annotation/track.go:78-150 | Tracking starts from a point on the frame or a box that can be saved, on a new track or one of the frame's clip, and saves the box |
| RequestRules.RequestTells | api/internal/annotation/service.go:92-407 | All of these for every request: when it fails, and what it changes and nothing else |
| WriteRules.ReportTells | api/internal/db/tracking.sql.go:233-254 | Reported boxes become open proposals where there is no box or an open proposal, in its stead, and nowhere else |
| WriteRules.TracksFoundTell | api/internal/pipeline/prelabel.go:388-463 | Each found track is new and gets the first box found on each of the frames as an open proposal |
| WriteRules.ObjectsTell | api/internal/tracker/exemplar.go:87-146 | Each object found is one open proposal on a new track of the class looked for |
| WriteRules.WriteTells | api/internal/db/tracking.sql.go:47-254 | For every model write: when it happens, which proposals it puts or takes back, which emptied tracks go, and that every other box and track stays |
| ProposalCounts.UpsertCloses | api/internal/db/annotations.sql.go:457-473 | Saving a box closes the proposal at its key and no other |
| ProposalCounts.BoxSavedResolves | api/internal/annotation/service.go:260-273 | Saving a box decides its proposal in one event and leaves all others open |
| ProposalCounts.DeleteResolves | api/internal/annotation/service.go:208-227 | Deleting a track rejects each of its open proposals in one event |
| ProposalCounts.RemoveBoxResolves | api/internal/annotation/service.go:282-311 | Deleting a box rejects its proposal in one event, also when the track goes with it |
| ProposalCounts.UpdateResolves | api/internal/annotation/service.go:172-187 | Changing a track's type or values decides no proposal |
| ProposalCounts.CopyResolves | api/internal/annotation/service.go:314-359 | Copying boxes decides no proposal and opens none |
| ProposalCounts.MarkResolves | api/internal/annotation/service.go:361-393 | Marking a frame labeled decides each of its open proposals in one event; other marks decide none |
| TableShape.CopyKeyed | api/internal/db/annotations.sql.go:24-33 | Copies never give a track two boxes on a frame |
| TableShape.UpsertShaped | api/internal/annotation/service.go:264-273 | Saving a box keeps one box per track and frame, boxes on their own clip, and no verified box on an empty frame |
| TableShape.CopyShaped | api/internal/annotation/service.go:314-349 | So does copying boxes |
| TableShape.MarkShaped | api/internal/annotation/service.go:361-393 | So does marking a frame |
| AnnotationLedger.RequestResolves | api/internal/annotation/service.go:92-407 | Every labeling request takes proposals off the open ones only by deciding each in one event |
| AnnotationLedger.RequestDecidesOnce | api/internal/annotation/service.go:92-407 | For each key a request adds one decision event if its proposal was open and no longer is, and none otherwise |
| AnnotationLedger.RequestKeeps | api/internal/annotation/service.go:92-407 | Every request keeps the tables in shape, every event one they take, and every proposal accounted for |
| AnnotationLedger.WriteKeeps | api/internal/db/tracking.sql.go:47-254 | So does every model write: reporting boxes, restarting tracking, dropping empty tracks, saving and clearing pre-labels, and finding objects |
| AnnotationLedger.ObjectsFoundKeep | api/internal/tracker/exemplar.go:87-146 | So does an exemplar search, which adds a track and a proposal for each object found |
| AnnotationLedger.SavePrelabelsKeep | api/internal/pipeline/prelabel.go:388-463 | Replacing a clip's pre-labels withdraws what it deletes and proposes what it inserts |
| AnnotationLedger.EveryProposalIsAccountedFor | api/internal/annotation/service.go:208-407 | Over any run of requests, model writes and trashing the tables stay sound |
| AnnotationLedger.AccountedFromTheStart | api/internal/annotation/service.go:208-407 | From empty tables over any run: proposals made at a key are those open, those decided in one event each, and those withdrawn |
| AnnotationLedger.AcceptingIsResaving | api/internal/db/box_events.sql.go:126-134 | Accepting by frame status records for each open proposal the event that re-saving its box unchanged would |
| AnnotationLedger.CopiesAreCorrections | api/internal/annotation/events.go:167-184 | Copying onto a frame someone else marked records one added box per copy, naming them, and onto other frames nothing |
| EmptyFrames.RequestBare | api/internal/db/annotations.sql.go:14-17 | No labeling request leaves a box on a frame marked empty that had none |
| EmptyFrames.WriteBare | api/internal/db/tracking.sql.go:233-254 | A model write puts a box on an empty frame exactly when a tracker's report or an exemplar search writes a new one there; pre-labels and clearing never do |
| EmptyFrames.StepBare | api/internal/db/tracking.sql.go:233-254 | For every step: empty frames stay without boxes exactly when the step spares them, a condition on the tables before it |
| EmptyFrames.RunBare | api/internal/db/tracking.sql.go:233-254 | Over any run whose model writes spare them, empty frames stay without boxes |
| EmptyFrames.ReportLandsOnEmpty | api/internal/db/tracking.sql.go:233-254 | After any run from empty tables a report keeps empty frames without boxes exactly when none of its frames is marked empty |
| EmptyFrames.ProposalOnEmptyFrame | api/internal/tracker/worker.go:58-105 | Tracking from a point, marking the frame empty and the tracker's report, run from empty tables, leave a proposal on the marked frame |
| AnnotationService.Service.RecordBoxEvents | api/internal/annotation/events.go:108-118 | Events and refusals of the states read before the edit are added, and nothing else changes |
| AnnotationService.Service.CreateTrack | api/internal/annotation/service.go:92-142 | The transaction's statements in order make the specified change, or none when it fails; the service stays sound, and each proposal it takes off the open ones gets one event, and it fails and changes exactly as RequestRules says |
| AnnotationService.Service.UpdateTrack | api/internal/annotation/service.go:144-206 | The same for a change of type or values, which decides no proposal |
| AnnotationService.Service.DeleteTrack | api/internal/annotation/service.go:208-227 | The same, with events undone when the track is gone or trashed |
| AnnotationService.Service.SetBox | api/internal/annotation/service.go:245-280 | The same for saving a box |
| AnnotationService.Service.DeleteBox | api/internal/annotation/service.go:282-312 | The same, with events undone when there is no such box |
| AnnotationService.Service.RecordCopies | api/internal/annotation/events.go:167-184 | The loop reads each copy back as if it were not there yet and records them |
| AnnotationService.Service.CopyBoxes | api/internal/annotation/service.go:314-359 | The same for copying boxes |
| AnnotationService.Service.SetFrameStatus | api/internal/annotation/service.go:361-407 | The same for marking a frame, refused as empty while it has boxes |
| AnnotationService.Service.TrackObject | api/internal/annotation/track.go:78-150 | The same for the box a tracking request starts from |
| ClipChunks.ChunkClips | api/internal/ingest/clips.go:18-34 | Adjacent non-empty clips cover the video exactly; all but the last have per frames, the last at most per or fewer than per+minLen after a merge, and at least minLen if there are others |
| ClipChunks.CutIsUnique | api/internal/ingest/clips.go:18-34 | Those requirements leave exactly one way to cut a video |
| ClipChunks.ChunksLongEnough | api/internal/ingest/clips.go:29-32 | Every clip has at least minLen frames when the video does |
| ClipLengths.ClipsLongEnough | api/internal/ingest/clips.go:15-33 | For any length from the shortest clip to a whole one, every clip has it exactly when the frames left over after whole clips are none, have it too, or are merged |
| ClipLengths.ClipsInRange | api/internal/ingest/clips.go:15-33 | The range of 10 to 20 seconds, as two to four shortest clips: kept exactly under that condition |
| ClipLengths.ShortLastClip | api/internal/ingest/clips.go:15-33 | At one frame a second 22 seconds are cut into 15 and 7 |
| ClipChunks.InsertClips | api/internal/ingest/worker.go:185-213 | Writes the clips of the cut and each frame index exactly once, in the clip that holds it and with its own hash |
| ClipChunks.InOneChunk | api/internal/ingest/worker.go:185-213 | No frame is in two clips |
| ClipChunks.IngestedIsSound | api/internal/ingest/worker.go:158-166 | A video fresh from ingest has its clips numbered in start order and all its frames counted |
| ClipNumbers.NumberedIsGapless | api/internal/db/clips.sql.go:168-176 | Live numbers are exactly 0 to n-1, each once, in the order of first frames |
| ClipNumbers.NumberedStays | api/internal/db/clips.sql.go:168-176 | Renumbering changes nothing exactly when the clips are numbered already |
| ClipNumbers.ParkingNeverClashes | api/internal/db/clips.sql.go:181-186 | Whichever rows parking has done, no two live clips share a number |
| ClipNumbers.NumberingParkedNeverClashes | api/internal/db/clips.sql.go:168-186 | Whichever rows numbering parked clips has done, no two live clips share a number |
| ClipNumbers.NumberingClashes | api/internal/db/clips.sql.go:181-183 | Without parking some row order clashes exactly when a clip's new number is another live clip's present one |
| ClipNumbers.TrashingNeedsParking | api/internal/db/clips.sql.go:181-183 | That happens after trashing a clip before two others |
| ClipNumbers.TrashKeepsSound | api/internal/trash/trash.go:53-73 | Trashing a clip keeps the live numbers and the frame count right |
| ClipNumbers.RestoreKeepsSound | api/internal/trash/trash.go:76-98 | So does restoring one |
| ClipNumbers.PurgeKeepsSound | api/internal/db/clips.sql.go:28-31 | So does deleting a trashed one for good |
| ClipRules.TrashTells | api/internal/trash/trash.go:53-73 | Trashing fails exactly when no live clip has the id or the video is trashed; it marks that clip, numbers each live one by how many live ones start before it, by id among equals, and takes the clip's frames off the count |
| ClipRules.RestoreTells | api/internal/trash/trash.go:76-98 | Restoring does the reverse, and fails exactly when no trashed clip has the id or the video is trashed |
| ClipRules.PurgeTells | api/internal/db/clips.sql.go:28-31 | Deleting for good drops exactly the trashed clip |
| ClipNumbers.RestoreUndoesTrash | api/internal/trash/trash.go:53-98 | Trashing a clip and restoring it gives back the video exactly: numbers, frame count and rows |
| ClipRuns.RestoreAllIs | api/internal/content/trash.go:145-174 | Restoring clips one by one fails exactly when one is not in the trash or the video is, and otherwise equals restoring them together |
| ClipRuns.RestoreInAnyOrder | api/internal/content/trash.go:156-166 | The order clips are restored in does not matter |
| ClipRuns.ReadyVideosAreSound | api/internal/ingest/worker.go:162-166 | From ingest on, over any run of trashing, restoring, purging and ingesting again, numbers and frame count are right |
| ClipTable.Table.SetIdx | api/internal/db/migrations/00032_trash.sql:12-15 | A row takes a number exactly when no other live row has it |
| ClipTable.SweepRow | api/internal/db/clips.sql.go:181-186 | One more row in any order keeps live numbers apart |
| ClipTable.Table.Park | api/internal/db/clips.sql.go:184-186 | Parking row by row in any order succeeds and moves every live clip below zero |
| ClipTable.Table.Number | api/internal/db/clips.sql.go:168-176 | Numbering parked clips row by row in any order succeeds |
| ClipTable.RestoredBelow | api/internal/db/clips.sql.go:206-213 | A clip restored one below the lowest live number clashes with none |
| ClipTable.Table.MoveToTrash | api/internal/trash/trash.go:53-73 | The statements in order make the specified change and never clash, or nothing when the clip is not live |
| ClipTable.Table.BringBack | api/internal/trash/trash.go:76-98 | The same for restoring, refused when the clip is not trashed or its video is |
| LogHistory.IngestKeeps | api/internal/logs/buffer.go:46-56 | Ingesting keeps numbers strictly rising, loses nothing and passes every number of the batch |
| LogHistory.IngestTells | api/internal/logs/buffer.go:46-56 | A record is kept, as it is, exactly when its number is above all before it |
| LogHistory.AppendTells | api/internal/logs/buffer.go:36-42 | An appended record keeps its text and gets the number after the newest |
| LogHistory.ResendOverlaps | api/internal/logs/buffer.go:44-56 | A resend that repeats records and goes on with new ones adds just the new ones |
| LogHistory.ResendChangesNothing | api/internal/logs/buffer.go:44-56 | A batch sent again, at once or after anything else, changes nothing, in whatever order its records come |
| LogHistory.RunKeeps | api/internal/logs/buffer.go:36-56 | Over any run the log only grows and its numbers strictly rise |
| LogHistory.PollSeesNewest | api/internal/logs/buffer.go:58-80 | A poll after the last number lists the newest of the matching records added since that are still held |
| LogHistory.PollSeesAll | api/internal/logs/buffer.go:58-80 | It lists all that was added exactly when no more was added than the ring and the limit hold |
| LogHistory.ListingTells | api/internal/logs/buffer.go:60-80 | A held record is listed exactly when it is newer than asked, matches, and fewer than the limit of those behind it do |
| LogHistory.ListingRises | api/internal/logs/buffer.go:60-80 | Records are listed oldest first |
| LogHistory.PollerMissesNothing | api/internal/logs/buffer.go:58-80 | A poller that keeps up gets exactly the matching records added, in order, over any rounds |
| LogHistory.LimitIsKept | api/internal/logs/buffer.go:58-80 | A listing keeps to its limit on every window exactly when the limit is above zero |
| LogBuffer.Buffer.Push | api/internal/logs/buffer.go:26-33 | The ring holds the newest records of the log with one more |
| LogBuffer.Buffer.Append | api/internal/logs/buffer.go:36-42 | The record gets the next number and keeps its text |
| LogBuffer.Buffer.Ingest | api/internal/logs/buffer.go:46-56 | The loop takes exactly the records above the newest number |
| LogBuffer.SlotWraps | api/internal/logs/buffer.go:65-67 | The ring index is the slot that many back from the newest |
| LogBuffer.Buffer.List | api/internal/logs/buffer.go:60-80 | Despite its early stops it returns the newest matching records of the window, oldest first, and the newest number |
| FailureLimiter.Limiter.IsBlocked | api/internal/auth/limit.go:30-43 | Read off the key's own failures and clears: blocked exactly when its window is open and has as many failures as allowed, and the wait is what is left of the window |
| FailureLimiter.Limiter.Fail | api/internal/auth/limit.go:45-59 | Adds one failure to the key's history; pruning and other keys do not show |
| FailureLimiter.Limiter.Clear | api/internal/auth/limit.go:61-65 | Forgets the key's failures only |
| FailureLimiter.Limiter.Prune | api/internal/auth/limit.go:67-73 | Drops the expired entries and no others |
| FailureHistory.EventMovesOne | api/internal/auth/limit.go:45-65 | An event moves its own key's state and no other |
| FailureHistory.WindowIs | api/internal/auth/limit.go:45-65 | A key's state is how many failures there are since its last window began and when that ends; a window begins with a failure after none, a clear, or the end of the one before |
| FailureRate.AllowedHasRoom | api/internal/auth/limit.go:30-59 | A failure recorded after a check that said no finds its window below the maximum and the failures the check missed |
| FailureRate.RateIsBounded | api/internal/auth/limit.go:30-59 | With each failure recorded after a check that said no and missed at most so many of the failures before it, none cleared, no stretch of one window's length, ends included, holds more than twice the maximum and that many; checks that miss none give twice the maximum |
| FailureRate.RateIsReached | api/internal/auth/limit.go:30-59 | For every number of missed failures that many do happen within one window's length |
| FailureCalls.AskedIsGuarded | api/internal/auth/service.go:112-146 | Callers that ask before they record, with other calls and other keys between, guard a key's failures |
| FailureLimiter.Limiter.RunStaysWithinRate | api/internal/auth/limit.go:30-73 | After any calls to the limiter, a key asked for before each failure and never cleared stays within the rate |

## Left out

- Floating-point rounding, NaN and 32-bit narrowing: coordinates, overlaps and shares are exact reals and counters are unbounded.
- `FailureRate.RateIsBounded`: needs a window longer than zero; how many failures a check may miss is a parameter, set by how many requests run at once between their two calls.
- `ClipChunks.ChunkClips`: takes the frames per clip and the shortest clip as whole numbers with 0 <= minLen <= per and per >= 1; rounding them from seconds and a frame rate is not modelled.
- `LogBuffer.Buffer.Push`: needs a capacity above zero, as adding to a ring of none stops the original; records are values, so sharing them with callers is not modelled.
- `SplitAssignment.AssignSplits`: needs distinct video ids, which the table's primary key gives; so does `ExportBuild.Build`.
- `SummaryRows.Summary`: needs each named label type once in the order, which is how both are loaded.
- `OpenTracks.Prune`: builds the kept tracks as a new list; the original writes them over the old one, which nothing else reads.
- `AnnotationTables.Write`: which boxes a model finds, and the drift flags it sets, come from outside; checks that only stop a pre-labeling run (its status, held-out videos) are left out.
- `WriteRules.WriteTells`: needs every track in use numbered below the next one, which holds of all tables in shape (`WriteRules.ShapedBelowNext`).
- Clips of several videos at once: the clip statements name one video and touch no other's rows.
- Storage cleanup after a clip is deleted for good, audit entries, and the claims the trash releases.
- Purging videos, merging users or label types, and the cascades that delete events with their frames.
- Ratios shown from the counts (precision, recall) and the disagreement lists of the trial page: settled by reading one line each.
- Class names in label types are checked elsewhere (`NormalizeType`); only that names and options hold no dash is used.
- Writing dataset files, network, database drivers, object storage, video decoding, GPU workers and email.
- The web app and the measurement scripts.
- Sessions, passwords, sign-in codes and permissions other than the failure limiter.
- Locks: each method of the log ring and the limiter, and each request, runs alone.
