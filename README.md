# Maximum Discord bot core, in Dafny

This project is a Dafny model of the decision logic inside the command and event handlers of the
Maximum Discord bot (saitamau-maximum/discord-bot). Discord supplies the data: members, roles,
the channel cache, thread history. The handlers filter it, rank it, reorder it and classify it,
and those rules are modelled and proved here.

- **Members picker** (`MembersPicker`, `members_picker.dfy`). Handles `/pick members`.
  - Reads up to three `target`/`exclude` mentionable options.
  - Builds the id-keyed candidate map. A JavaScript `Map` is modelled as an insertion-ordered
    sequence with distinct ids.
  - Deletes the bot itself, every bot (unless they are included) and every excluded id.
  - Refuses when too few candidates remain.
  - Shuffles the rest in place with Fisher–Yates, then takes a prefix.
  - `Math.random()` is replaced by a supplied `draw` function with `draw(i) <= i`.
  - The loops are methods, each proved equal to a reference function. Lemmas state what the
    result contains.
- **Members inspector** (`MembersInspector`, `members_inspector.dfy`).
  - Parses grade tokens such as `21B` with the unanchored regex `(\d+)([BMD])`.
  - Ranks grades with `maxGrade`.
  - Sorts each roster section in place with the grade comparator.
  - Renders the roster: a header, the active section, the inactive section, and the "nobody
    registered yet" line.
- **Times manager** (`TimesManager`, `times_manager.dfy`). The `create` flow filters the member's
  roles to `卒業生` and `^[0-9]{2}B$`, sorts and reverses the names, looks up the category
  `times-<top role>` and creates `times-<input>` under it. Each lookup failure gets its own reply.
- **Voice-channel notifier**:
  - The notice template (`VcTemplate`, `vc_template.dfy`).
  - The `VoiceChannelNotifier` class with its `enabled` switch (`VcNotifier`, `vc_notifier.dfy`).
  - Quiet hours, and the join/leave/move classification of a voice-state update.
- **MerinGPT** (`MerinGpt`, `merin_gpt.dfy`).
  - The prompts built from a thread history and for `ask`.
  - The fallback answer when the completion fails.
  - The guards that decide when the bot answers.
  - The completion service is a function parameter.

Shared modules:

- `Wrappers`: `Option`, `Result`, map lookup, the present values of a list.
- `Strings`: digits, `${n}`, `parseInt` on a digit run, `join`, `trim`.
- `Sorting`: an in-place insertion sort driven by a JavaScript comparator and an in-place
  reverse, both proved against functions on sequences. Together they stand for `Array.prototype.sort`
  and `reverse`.

Where the code and the accompanying tests disagree, the model follows the code:

- `sortMembers` never reads `isActive`.
- Its order among equal grades is not specified.

## Model

| member | source | states |
|---|---|---|
| MembersPicker.GetMentionableOptions | modules/members-picker/members-picker.ts:214-229 | returns the options `prefix1`..`prefix3` that were given, in index order, and no other value |
| MembersPicker.PutFacts | modules/members-picker/members-picker.ts:149-158 | after `set(id, m)` the map holds `m`'s id and `m`, other entries are kept, and no other id appears |
| MembersPicker.PutKeepsDistinctIds | modules/members-picker/members-picker.ts:149-158 | `set` keeps every id held at most once |
| MembersPicker.KeepFacts | modules/members-picker/members-picker.ts:161-189 | deleting entries keeps exactly the entries passing the test, never adds an id, and keeps ids distinct |
| MembersPicker.PutAllFacts | modules/members-picker/members-picker.ts:152-154 | setting every member of a role adds exactly their ids, and every entry came from the map or the role |
| MembersPicker.GatherIntoFacts | modules/members-picker/members-picker.ts:149-158 | the target loop yields distinct ids. Its keys are exactly the ids the targets stand for, and each entry is a member a target stands for |
| MembersPicker.TargetsAreGathered | modules/members-picker/members-picker.ts:149-158 | every member of every target ends up keyed in the map |
| MembersPicker.GatherTargets | modules/members-picker/members-picker.ts:149-158 | the nested loop computes the reference gathering |
| MembersPicker.DeleteBots | modules/members-picker/members-picker.ts:166-172 | deleting bots while iterating the map leaves exactly its human entries, in order |
| MembersPicker.CollectExclusions | modules/members-picker/members-picker.ts:175-184 | the exclusion set is exactly the ids the exclude mentions stand for |
| MembersPicker.DeleteExcluded | modules/members-picker/members-picker.ts:187-189 | after the difference loop, exactly the entries with an id outside the exclusion set remain |
| MembersPicker.EligibleMembership | modules/members-picker/members-picker.ts:149-189 | a member is a candidate iff it was gathered, it is not the bot itself, it is not a bot (unless bots are included), and its id is not excluded; ids stay distinct |
| MembersPicker.EligibleSound | modules/members-picker/members-picker.ts:149-189 | every candidate came from a target. The bot itself, bots (by default) and excluded ids are never candidates, even when targeted |
| MembersPicker.ComputeEligible | modules/members-picker/members-picker.ts:149-189 | the handler's sequence of loops computes the reference candidate list |
| MembersPicker.Shuffle | modules/members-picker/members-picker.ts:200-205 | the in-place Fisher–Yates loop leaves the array equal to the reference shuffle for the drawn indices |
| MembersPicker.ShuffleDownIsPermutation | modules/members-picker/members-picker.ts:202-205 | swapping `i` with some `j <= i` at each step gives a permutation of the input |
| MembersPicker.ShuffleDownKeepsDistinctIds | modules/members-picker/members-picker.ts:202-205 | the shuffled candidates still hold each id once |
| MembersPicker.EffectiveCount | modules/members-picker/members-picker.ts:134 | an absent or zero count becomes exactly 1; any other value is kept as given |
| MembersPicker.SliceEnd | modules/members-picker/members-picker.ts:207 | `slice(0, end)` takes `end` elements when it is in range, at most the whole array, and `len + end` (at least 0) for a negative end |
| MembersPicker.SelectionFacts | modules/members-picker/members-picker.ts:201-207 | the picked members are distinct candidates. There are exactly `count` of them when `0 < count <= candidates`; a negative count drops that many from the end |
| MembersPicker.HandleMembersCommand | modules/members-picker/members-picker.ts:132-212 | outside a guild, the refusal. Otherwise "too few" exactly when there are fewer candidates than the count; else the prefix of the shuffle |
| MembersPicker.PickedMembersAreEligible | modules/members-picker/members-picker.ts:132-212 | a successful pick gives `count` distinct targeted members. None is the bot itself, none is a bot unless bots are included, and none is excluded |
| MembersPicker.PickExample | modules/members-picker/members-picker.test.ts:110-144 | target member "1", exclude member "2" and count 1 pick member "1", and the reply is `抽選結果: <@1>` |
| MembersPicker.MentionTexts | modules/members-picker/members-picker.ts:208 | one mention `<@id>` per selected member, in selection order |
| MembersPicker.ReplyText | modules/members-picker/members-picker.ts:139-211 | the DM refusal and the too-few refusal carry their fixed texts. A pick is `抽選結果: ` followed by the picked members' mentions joined by single spaces, so a single pick is the prefix and that one mention |
| MembersInspector.Rank | modules/members-inspector/constants.ts:4-8 | Bachelor, Master and Doctor are 1, 2 and 3 |
| MembersInspector.DegreeLabel | modules/members-inspector/constants.ts:10-14 | each degree's label is one letter that reads back as that degree |
| MembersInspector.FirstMatch | modules/members-inspector/members-inspector.ts:173-174 | finds the leftmost position where a digit run is followed by B, M or D, or reports that there is none |
| MembersInspector.ParseGrade | modules/members-inspector/members-inspector.ts:172-190 | succeeds iff some position matches `(\d+)([BMD])`; otherwise it fails with "Invalid grade format" |
| MembersInspector.ParseGradeReadsLeftmostMatch | modules/members-inspector/members-inspector.ts:173-186 | the year is the whole digit run of the leftmost match and the degree is the letter after it |
| MembersInspector.GradeTextRoundTrip | modules/members-inspector/members-inspector.ts:150-190 | parsing the rendered `${year}${label}` gives back the grade |
| MembersInspector.ParseGradeExamples | modules/members-inspector/members-inspector.test.ts:15-28 | "21B", "21M" and "21D" parse to year 21 with Bachelor, Master and Doctor |
| MembersInspector.ParseGradeRejections | modules/members-inspector/members-inspector.test.ts:30-34 | "21A", "21C" and "21E" are rejected |
| MembersInspector.ReduceGrades | modules/members-inspector/members-inspector.ts:193-199 | the reduction returns the seed or a later element, and no element outranks it |
| MembersInspector.MaxGrade | modules/members-inspector/members-inspector.ts:192-200 | needs a non-empty list; returns one of its grades, which no grade outranks (higher degree, then lower year) |
| MembersInspector.MaxGradeIsUnique | modules/members-inspector/members-inspector.ts:192-200 | a grade of the list that nothing outranks is the result |
| MembersInspector.MaxGradeExamples | modules/members-inspector/members-inspector.test.ts:38-52 | Doctor beats Master and Bachelor; among Bachelors the smallest year wins |
| MembersInspector.CompareByGrade | modules/members-inspector/members-inspector.ts:102-108 | never answers 0, and answers 1 exactly when b's top grade outranks a's |
| MembersInspector.CompareByGradeIsTotalPreorder | modules/members-inspector/members-inspector.ts:102-108 | the comparator is total and transitive, so sorting with it orders the list |
| MembersInspector.SortMembers | modules/members-inspector/members-inspector.ts:98-110 | the array is sorted in place into a permutation of itself, non-increasing by top grade |
| MembersInspector.OutrankingMemberComesFirst | modules/members-inspector/members-inspector.ts:102-107 | after sorting, a member whose top grade outranks another's stands before it |
| MembersInspector.SortSection | modules/members-inspector/members-inspector.ts:127-139 | sorting a section throws exactly when a comparison meets a member without grades. Otherwise it gives a grade-ordered permutation of the same length |
| MembersInspector.FiltersSnoc | modules/members-inspector/members-inspector.ts:113-119 | one more member extends exactly one of the two lists, according to its activity |
| MembersInspector.PartitionSplitsByActivity | modules/members-inspector/members-inspector.ts:113-119 | the reduce gives the inactive and the active members, each in input order |
| MembersInspector.FiltersSelectByActivity | modules/members-inspector/members-inspector.ts:113-119 | every member of the active list is active, and every member of the inactive list is not |
| MembersInspector.PartitionCovers | modules/members-inspector/members-inspector.ts:113-119 | the two lists together hold every input member, each exactly once |
| MembersInspector.GradeTexts | modules/members-inspector/members-inspector.ts:151-152 | one text per grade, each the grade's `${year}${label}` text, and each parses back to its grade |
| MembersInspector.BlocksLayout | modules/members-inspector/members-inspector.ts:121-147 | header first, then the active section if any, the inactive section if any (last), and the "none yet" line exactly when both are empty |
| MembersInspector.RenderLines | modules/members-inspector/members-inspector.ts:130 | a section's lines are its members' rendered lines, one per member, in the section's order |
| MembersInspector.BlockTexts | modules/members-inspector/members-inspector.ts:147 | the output's blocks are the rendered blocks, one per block, in order |
| MembersInspector.RenderMembers | modules/members-inspector/members-inspector.ts:112-148 | fails exactly when a non-empty section's sort throws. Otherwise it outputs the blocks of the two grade-sorted sections joined by newlines |
| MembersInspector.ParseGrades | modules/members-inspector/members-inspector.ts:94 | succeeds iff every token parses, with each grade at its token's position |
| MembersInspector.ParseRenderedGrades | modules/members-inspector/members-inspector.ts:91-155 | parsing the rendered grade list gives back the grades |
| MembersInspector.ParseMembersApiResponse | modules/members-inspector/members-inspector.ts:91-96 | succeeds iff every member's grades parse; keeps each member's id, name and activity, and parses its grades |
| TimesManager.CandidateRoles | modules/times-manager/times-manager.ts:135-140 | a role name is a candidate iff it is exactly `卒業生` or two digits followed by `B` |
| TimesManager.CompareCodeUnitsIsTotalPreorder | modules/times-manager/times-manager.ts:149 | the default sort order is total and transitive |
| TimesManager.CompareZeroIffEqual | modules/times-manager/times-manager.ts:149 | only equal names compare equal |
| TimesManager.Greatest | modules/times-manager/times-manager.ts:149-152 | returns one of the names, and no name is greater in code-unit order |
| TimesManager.GreatestIsUnique | modules/times-manager/times-manager.ts:149-152 | a name greater than or equal to every other is the greatest |
| TimesManager.LastOfSortedIsGreatest | modules/times-manager/times-manager.ts:149 | the last element of the sorted roles is the greatest candidate |
| TimesManager.SelectCategoryName | modules/times-manager/times-manager.ts:149-152 | sorting, reversing and taking the first element names the category `times-` plus the greatest candidate |
| TimesManager.YearRolesCompareByYear | modules/times-manager/times-manager.ts:148-149 | between year roles, code-unit order is the numeric order of the years |
| TimesManager.AlumnusWins | modules/times-manager/times-manager.ts:148-152 | if `卒業生` is a candidate, it is chosen |
| TimesManager.LatestYearWins | modules/times-manager/times-manager.ts:148-152 | without `卒業生`, the year role with the largest year is chosen |
| TimesManager.FindCategory | modules/times-manager/times-manager.ts:153-155 | returns the first channel that is a category with the name, or none if there is no such channel |
| TimesManager.CreateChannel | modules/times-manager/times-manager.ts:124-172 | an unknown member gives "user not found", and no candidate role gives "no grade role". A missing category gives "category not found" with its name. Otherwise it creates `times-<input>` under that category. The first reply is sent in every case and quotes the created channel's name |
| TimesManager.CreatedUnderGradeCategory | modules/times-manager/times-manager.ts:135-172 | a created channel's parent is a category named `times-` plus one of the member's grade roles |
| TimesManager.AnnouncementText | modules/times-manager/times-manager.ts:119-121 | the first reply is exactly its opening text, then the name `times-<input>`, then its closing text |
| TimesManager.FailureText | modules/times-manager/times-manager.ts:127-164 | an error reply is sent exactly when the flow stops before creating a channel. An unknown user and a missing grade role get their fixed texts; a missing category gets a text that quotes the category name between 「 and 」 |
| VcTemplate.NotificationTemplate | modules/vc-notifier/template.ts:4-51 | the title and the colour each identify the kind. The description is `<user> が <channel>` followed by `に参加しました`, `から退出しました` or `に移動しました`, with "unknown" for a missing user. The count field is the decimal count. The image is the avatar or the placeholder |
| VcTemplate.KindsAreDistinguishable | modules/vc-notifier/template.ts:14-30 | notices of different kinds differ in title and in colour |
| VcNotifier.IsNotificationDisabled | modules/vc-notifier/vc-notifier.ts:22-26 | quiet hours are exactly hours 0 to 7 |
| VcNotifier.Classify | modules/vc-notifier/vc-notifier.ts:73-111 | no old channel and a new one is a join, and an old channel and no new one is a leave. Two channels with different ids are a move; anything else is no change |
| VcNotifier.VoiceChannelNotifier.Notification | modules/vc-notifier/vc-notifier.ts:63-126 | a notice is sent iff the notifier is enabled, it is not quiet hours, the notify channel is text-based and the update is a change. Join and move describe the new channel, leave the old one |
| VcNotifier.NoticeKindMatchesTransition | modules/vc-notifier/vc-notifier.ts:73-126 | the notice's title names the change the update was |
| VcNotifier.VoiceChannelNotifier.constructor | modules/vc-notifier/vc-notifier.ts:29 | the switch starts enabled |
| VcNotifier.VoiceChannelNotifier.HandleInteraction | modules/vc-notifier/vc-notifier.ts:128-160 | only an own base command (`vc-notifier`/`vcn`) in a guild is answered. `disable` clears the switch and `enable` sets it; help and info leave it unchanged |
| VcNotifier.NextEnabled | modules/vc-notifier/vc-notifier.ts:128-160 | other commands, and subcommands other than enable/disable, leave the switch alone. Disable clears it and enable sets it |
| VcNotifier.LastToggleWins | modules/vc-notifier/vc-notifier.ts:29-155 | after any run of interactions, the switch is the value set by the last enable/disable command, or its starting value if there was none |
| MerinGpt.IsMerinMessage | modules/merin-gpt/merin-gpt.ts:132-134 | a message is the bot's exactly when the bot is logged in and the author id is the bot's id |
| MerinGpt.IsMerinThread | modules/merin-gpt/merin-gpt.ts:136-138 | a thread is the bot's exactly when it has an owner and the bot is logged in with that id; a missing owner never matches a missing bot user |
| MerinGpt.HistoryTurns | modules/merin-gpt/merin-gpt.ts:141-146 | one turn per history message, in order, with its content. The role is assistant exactly when the author is the bot, and user otherwise |
| MerinGpt.PromptFromHistory | modules/merin-gpt/merin-gpt.ts:140-149 | the base system prompt, then the history turns |
| MerinGpt.HistoryPromptHasOneSystemMessage | modules/merin-gpt/merin-gpt.ts:140-149 | only the first message of a history prompt is a system message |
| MerinGpt.AskPrompt | modules/merin-gpt/merin-gpt.ts:181-192 | `[system, user(message)]` |
| MerinGpt.TitlePrompt | modules/merin-gpt/merin-gpt.ts:167-179 | `[system, title instruction, user(text)]` |
| MerinGpt.FetchCompletion | modules/merin-gpt/merin-gpt.ts:151-165 | a response whose first choice has a message answers with that message's content. A failed call, no choice or an empty first choice gives "エラーが発生しました" |
| MerinGpt.OnMessageCreate | modules/merin-gpt/merin-gpt.ts:116-129 | answers iff the message is in a thread, its author is neither a bot nor the bot itself, and the bot owns the thread; the answer is the completion of the history prompt |
| MerinGpt.AnswersOnlyInOwnThread | modules/merin-gpt/merin-gpt.ts:116-138 | an answer needs a logged-in bot that owns the thread and did not write the message |
| MerinGpt.OnInteraction | modules/merin-gpt/merin-gpt.ts:67-114 | dispatches on the subcommand alone, never on the command name. A chat command without a subcommand makes the handler throw (the model's `SubcommandMissing`), so nothing is sent. `ask` without a message, or with an empty one, does nothing. `ask` otherwise opens a thread named by the title completion and answered by the ask completion |
| MerinGpt.AskEchoShape | modules/merin-gpt/merin-gpt.ts:93-96 | the echoed text is user name, colon, and the message on an indented next line, when neither has outer white space for the trim to eat |
| Strings.JoinSnoc | modules/members-picker/members-picker.ts:208 | joining with an extra last part adds the separator and that part at the end of the joined text |
| Strings.DecimalRoundTrip | modules/vc-notifier/template.ts:37 | reading back the decimal rendering of a count gives the count |
| Strings.TrimStartSkips | modules/merin-gpt/merin-gpt.ts:93-96 | trimming removes exactly the leading run of white space |
| Strings.TrimEndSkips | modules/merin-gpt/merin-gpt.ts:93-96 | trimming removes exactly the trailing run of white space |
| Sorting.InsertionSort | modules/members-inspector/members-inspector.ts:99-108 | the in-place sort gives the reference insertion sort, a permutation, which is ordered when the comparator is a total preorder |
| Sorting.InsertionSortedIsSortedPermutation | modules/times-manager/times-manager.ts:149 | the reference sort returns a permutation, ordered under a total-preorder comparator |
| Sorting.Reverse | modules/times-manager/times-manager.ts:149 | the in-place reverse leaves the array equal to the reversed input |

## Left out

- Discord SDK plumbing: every `client.on` registration, replies and edits, member fetching,
  modals, thread creation and channel sending. The data they deliver are parameters; what they
  send is a returned value.
- The first sort of `sortMembers` by `localeCompare` on names: it is a supplied comparator, and
  nothing is promised about name order. Ties among equal grades depend on the engine's sort.
  The model uses insertion sort.
- `Math.random()` and uniformity: the shuffle takes its indices from `draw`.
- The clock: the hour is a parameter, and the embed's time field is dropped.
- The network: the members API `fetch` in the inspector is left out, and so is the OpenAI call,
  which is the `complete` parameter. `complete` is one fixed function, so two requests with the
  same prompt get the same answer.
- `help()`, `info()` and the `command()` builders: `HelpReply` and `InfoReply` stand for the
  fixed texts. The welcome message posted to a new times channel is not modelled.
- The picker's dispatch, including the "不明なサブコマンドです。" reply, and the inspector's
  and times manager's dispatch.
- The picker's option names for the count and the bot flag come from constants that
  `members-picker/constants.ts` does not define. The model takes the options' values directly.
- JavaScript numbers: the picker's count is an unbounded integer (negative values included), and
  member counts and years are unbounded naturals; none has the 2^53 precision limit.
- `MembersInspector.RenderMember`: it has no contract of its own. Its grade texts are covered by
  `GradeTexts`, and the rest is the literal format.
- `TimesManager.CreateChannel`: on success the first reply is edited to
  `チャンネルを作成しました: <channel>` (times-manager.ts:174-176); that edit is not modelled. A failed `guild.channels.create` is
  swallowed by `.catch(console.error)` (times-manager.ts:189); the model always creates the channel.
- `TimesManager.CreateChannel`: the `if (!guild) return` at times-manager.ts:167-168 cannot be
  reached, because a missing guild already ends the flow with "user not found".
- `VcNotifier.VoiceChannelNotifier.Notification`: the error lines `isChannelTextBased` logs are not
  modelled, only that nothing is sent.
- `MerinGpt.PromptFromHistory`: the history is taken in the order the fetched collection holds
  it. That order is Discord's and is not modelled.
- `MerinGpt.OnInteraction`: a chat command without a subcommand makes `getSubcommand` throw, and
  the model reports that as `SubcommandMissing`.
- Test expectations the code does not implement:
  - active members listed first (members-inspector.test.ts:100-107, 118-139);
  - name order among equal grades (members-inspector.test.ts:58-70);
  - a bare-string refusal reply (members-picker.test.ts:91-108).
- `main.ts`, `modules/utils.ts` (beyond the text-based check, which is `NotifyChannel`) and
  `modules/tex-exporter` are not part of this model.
