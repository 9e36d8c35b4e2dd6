# Three process simulations, modelled in Dafny

This project models the decision logic of three small C programs that
simulate multi-process systems:

- **Project_Three**, a counter-espionage simulation. Resistance groups are
  created into a bounded registry, and some are infiltrated by a spy. An
  agency flags the spies of suspicious groups, then releases, imprisons
  or keeps each suspect according to its suspicion level. A watchdog in
  the parent process stops the run on casualty or time limits. The
  `key=value` configuration file is read over zeroed settings.
- **Project_One**, a rope-pulling game. Each player process answers JUMP
  and PULL commands by spending energy and reporting back. The referee's
  per-frame `updateGameLogic` sends a round of commands when one is due,
  scores the jumper's stabilization and ends the game on time or score.
  The `KEY value` settings file sets seven globals.
- **Project_Tow**, a CSV file pipeline. Generators take a file index from
  a shared counter and write `./home/<index>.csv`: a header of
  `Col<i>` names, then rows of comma-terminated cells, some left empty.
  The supervisor reserves slots for its children's pids, forks them, and
  once a second checks four counters and the run time against their
  limits. The `key=value` configuration is read over built-in defaults.

Everything is a pure function or a small method over immutable
datatypes:

- Shared-memory segments become records, and a semaphore-protected region
  becomes one step.
- Every `rand()` draw, clock reading, fork outcome and reply read from a
  pipe is a parameter.
- A file is the sequence of chunks `fgets` returns.
- C's truncating `/` and `%` are written out (`CLib.CDiv`, `CLib.CRem`),
  and so are its division trap (`CLib.RangeDraw` returns `None`) and the
  IEEE infinities of a `double` quotient (`CounterIntelligence.Quotient`).

Shared helpers:

- `CLib`: option values, C integer division, numbers.
- `CScan`: the parts of `sscanf`, `atoi`, `atof` and `%d` printing the
  parsers rely on.
- `LineFold`: a line-by-line fold with its "the last assignment wins"
  lemma.

## Model

| member | source | states |
|---|---|---|
| CLib.CRem | Project_Tow/file_generator.c:71 | C's remainder: dividend = quotient * divisor + remainder, the remainder is smaller than the divisor in magnitude and takes the dividend's sign |
| CLib.CDivAgreesOnNaturals | Project_Three/simulation.c:593 | for a non-negative dividend and positive divisor, C's `/` and `%` agree with Euclidean division |
| CLib.RangeDraw | Project_Tow/file_generator.c:84-85 | `min + r % (max - min + 1)` traps exactly when the span is zero, and lies in `[min, max]` whenever `min <= max` |
| CScan.ScanIntOfItoa | Project_Tow/config.c:53 | a number printed with `%d` and followed by a non-digit scans back (`%d`, `atoi`) as the same number, with the rest untouched |
| CScan.ItoaInjective | Project_Tow/file_generator.c:81 | different numbers print as different `%d` texts |
| CScan.ScanKeyValueOfLine | Project_Tow/config.c:49 | `%[^=]=%s` on `key=value` followed by whitespace yields exactly that key and value, within the field width |
| CScan.ScanWordIntOfLine | Project_One/main.c:58 | `%s %d` on `word n` yields that word and number |
| LineFold.LastAssignmentWins | Project_Tow/config.c:43-84 | folding lines over a record leaves each field at the value of the last line that assigns it, or its starting value when none does |
| AgencyConfig.ApplyLine | Project_Three/config.c:19-62 | a skipped line, a line that does not split at `=`, and an unknown key change nothing; a known key sets only its own setting |
| AgencyConfig.ParseConfig | Project_Three/config.c:8-65 | an unopenable file gives status -1 and leaves the settings alone; otherwise the status is 0 |
| AgencyConfig.ParseConfigLastWins | Project_Three/config.c:16-62 | after a readable file every setting holds the value of its last assigning line, or zero |
| AgencyConfig.Zeroed | Project_Three/config.c:16 | every setting starts at zero, integer or real according to its kind |
| IdArrays.Contains | Project_Three/shared.c:81-87 | the linear scan up to `count` finds an id exactly when it is among the live entries |
| IdArrays.ShiftRemove | Project_Three/simulation.c:244-252 | the shift-down loop removes entry `i`, keeps the order of the others and lowers the count by one |
| IdArrays.RemoveFirst | Project_Three/simulation.c:244-262 | removing an id takes one copy of it out of the multiset of live entries, and a duplicate-free list stays duplicate-free without it |
| SharedData.InitSharedData | Project_Three/shared.c:36 | every counter is zero and every list empty after initialization |
| SharedData.IsMemberSuspected | Project_Three/shared.c:81-87 | returns 1 exactly when the id is among the first `count` suspects, otherwise 0 |
| SharedData.SuspectedIgnoresStaleCells | Project_Three/shared.c:82 | cells past the suspect count never affect the answer |
| SharedData.MemberIdRoundTrip | Project_Three/simulation.c:133 | `group_id * 1000 + (i + 1)` divides back to the group and leaves `i + 1` as remainder |
| SharedData.MemberIdInjective | Project_Three/simulation.c:133 | distinct (group, member) pairs within a group's range get distinct ids |
| SharedData.GroupIndex | Project_Three/simulation.c:593-603 | the lookup finds the first group with the id, or -1 exactly when no group has it |
| CounterIntelligence.Quotient | Project_Three/simulation.c:562 | the `double` quotient of two ints: finite exactly when the divisor is non-zero, NaN exactly for 0/0 |
| CounterIntelligence.QuotientComparisons | Project_Three/simulation.c:562 | comparing a quotient with a threshold is comparing the numerator with threshold times divisor, infinities included |
| CounterIntelligence.AddSuspect | Project_Three/simulation.c:569-581 | an id is appended only when absent and the list has room; each append counts one arrest; duplicate-freedom is kept |
| CounterIntelligence.FlagGroups | Project_Three/simulation.c:557-583 | suspects only grow at the end, one arrest per new suspect; every new suspect is a flagged group's spy id; every flagged group's spy is a suspect unless the list is full |
| CounterIntelligence.NoFlagsWithoutSpyTime | Project_Three/simulation.c:562-566 | with no spy time anywhere and a non-negative threshold, no group is flagged |
| CounterIntelligence.Classify | Project_Three/simulation.c:605-637 | a suspicion below the release threshold releases; otherwise one above the imprison threshold imprisons; anything else, NaN included, keeps the suspect |
| CounterIntelligence.ClassifyMonotone | Project_Three/simulation.c:605-637 | a higher suspicion never yields a milder verdict |
| CounterIntelligence.FlaggedSpyImprisoned | Project_Three/simulation.c:560-637 | when both arrest thresholds lie at or below the suspicion threshold, the spy of a group flagged in a pass is imprisoned in that pass |
| CounterIntelligence.Kept | Project_Three/simulation.c:589-639 | the suspects that stay are exactly those whose verdict is to keep them |
| CounterIntelligence.VerdictPartition | Project_Three/simulation.c:589-639 | kept, released and imprisoned suspects together account for every suspect exactly once |
| CounterIntelligence.DecisionPass | Project_Three/simulation.c:589-639 | the remove-and-shift loop leaves exactly the kept suspects in order, counts the releases and imprisonments, and removes the imprisoned spies from the spy list |
| CounterIntelligence.ResetSpyTimes | Project_Three/simulation.c:642-646 | every group's spy time is zero afterwards and nothing else changes |
| CounterIntelligence.AnalysisRound | Project_Three/simulation.c:557-646 | a round keeps the suspects duplicate-free, adds arrests only for new suspects, and a second flag step right after it flags nobody |
| ResistanceGroups.CreateGroup | Project_Three/simulation.c:103-116 | a new group with no spy time is appended while the registry has room; a full registry is unchanged |
| ResistanceGroups.CreateAllSaturates | Project_Three/simulation.c:103-116 | a run of creations appends the groups in order until the registry holds MAX_GROUPS, then stops |
| ResistanceGroups.ManagerIteration | Project_Three/simulation.c:88-180 | a size range with `max = min - 1` traps. Otherwise the group is counted. While the registry has room, the new group is appended: it has no spy time, the drawn military and infiltration flags, and a size within the range when `min <= max`. A full registry is unchanged. An infiltrated group's first member is registered as a spy while the spy list has room, and a group that is not infiltrated registers none. Nothing else in the shared record changes |
| ResistanceGroups.RegisteredSpyFoundByAgency | Project_Three/simulation.c:143-147 | the spy id the manager registers leads back to its group under `/ 1000`, with member number 1 |
| ResistanceGroups.TopUp | Project_Three/simulation.c:190-218 | a group below the maximum gains one member per successful spawn and never passes the maximum; others are untouched |
| ResistanceGroups.ReplenishAllSpawned | Project_Three/simulation.c:184-221 | when every spawn succeeds, each group ends at the larger of its size and the maximum |
| ResistanceGroups.ExitCounters | Project_Three/simulation.c:239-263 | an arrested spy counts as caught and leaves the spy and suspect lists, after which it is no longer suspected; other casualties bump their own counter |
| ResistanceGroups.ExitAsWrittenDecrements | Project_Three/simulation.c:357-445 | as written, a casualty takes two members off its group and a stopped member one |
| ResistanceGroups.KilledMemberCountedTwice | Project_Three/simulation.c:360-441 | a three-member group that loses one member to a kill is left with one member |
| ResistanceGroups.ExitDecrementsOnce | Project_Three/simulation.c:437-445 | corrected, every exit takes exactly one member off the member's group and no other group changes |
| Watchdog.WatchdogCheck | Project_Three/simulation.c:870-895 | the run continues exactly when it was running and no stop condition holds |
| Watchdog.TerminationMonotone | Project_Three/simulation.c:873-889 | once due, termination stays due as casualties and time grow |
| Watchdog.AgencyCasualty | Project_Three/simulation.c:490-554 | a light injury has no lasting effect; a caught agency member is counted as killed; the caught counter never moves |
| Watchdog.CaughtAgencyNeverCounted | Project_Three/simulation.c:490-554 | over any sequence of hits `caught_agency` keeps its value and `killed_agency` counts kills and captures alike |
| Watchdog.AgencyWipedOutStops | Project_Three/simulation.c:884-889 | when the whole agency has been killed or caught after the time limit, the watchdog stops the run |
| GameSettings.ApplyLine | Project_One/main.c:57-66 | a line that does not scan as `%s %d`, or names an unknown key, changes nothing; a known key sets only its global |
| GameSettings.ReadSettings | Project_One/main.c:48-69 | an unopenable file is the failure exit; an empty file leaves the globals as they were |
| GameSettings.ReadSettingsLastWins | Project_One/main.c:57-67 | every global ends at the value of the last line that sets it, or keeps its earlier value |
| GameSettings.KnownLineSets | Project_One/main.c:58-65 | a well-formed `KEY value` line sets exactly that global to that value |
| PlayerProcess.EffortTime | Project_One/main.c:110 | the effort time lies in `1..dec` for a positive decrease and is 1 otherwise |
| PlayerProcess.Spend | Project_One/main.c:114-115 | energy after an effort is the old energy less the decrease, clamped at 0 |
| PlayerProcess.HandleCommand | Project_One/main.c:102-148 | an exhausted player answers INACTIVE and keeps its energy; otherwise it reports its effort and new energy, and stops with INACTIVE exactly when that energy is 0; other words are ignored |
| PlayerProcess.SessionBounded | Project_One/main.c:95-157 | with positive decreases a player makes at most its initial energy in jumps and pulls, its energy never rises, and a stop ends at 0 with INACTIVE last |
| PlayerProcess.StoppedIgnoresRest | Project_One/main.c:121-125 | after a command that stops the player, later commands have no effect |
| PlayerProcess.InitializeGame | Project_One/main.c:71-82 | every team is numbered by its index with score 0, and every player carries its team, index, the initial energy and pid -1 |
| Referee.ScoreIncrement | Project_One/opengl_renderer.c:392-397 | the score for a jump is the whole part of `100 / seconds`, and at least 1 |
| Referee.QuickerScoresMore | Project_One/opengl_renderer.c:392-397 | a quicker stabilization never scores less |
| Referee.JudgeJump | Project_One/opengl_renderer.c:386-409 | a score rises only for a STABILIZED reply to a pending jump; it clears the tracker and shows the reported energy; INACTIVE shows 0 |
| Referee.JumpScoredOnce | Project_One/opengl_renderer.c:386-409 | once a jump's STABILIZED reply is judged, no further reply scores it again |
| Referee.PullShown | Project_One/opengl_renderer.c:449-458 | a PULLED reply shows its energy, INACTIVE shows 0, anything else keeps the display |
| Referee.RoundOrders | Project_One/opengl_renderer.c:357-435 | a round sends JUMP to the current player of every team and PULL to every other player, and nothing else |
| Referee.TeamRound | Project_One/opengl_renderer.c:357-471 | a team's score rises by the jump's increment exactly when the jumper stabilized in positive time; the other players' displays follow their pull replies |
| Referee.UpdateGameLogic | Project_One/opengl_renderer.c:322-476 | time or score ends the game with nothing sent; a due round sends the round's orders and passes the turn; otherwise only the start time is taken; scores never go down |
| Referee.StepTurn | Project_One/opengl_renderer.c:474 | the turn moves on exactly when a call sends commands |
| Referee.FirstRound | Project_One/opengl_renderer.c:323-354 | the first call of a game sends the first round whatever the delay and draw, and records the gap between its two clock readings as the round's time |
| Referee.GameEndsAtNextTick | Project_One/opengl_renderer.c:290-301 | the call that ends the game sends nothing, and the next tick exits without calling `updateGameLogic`; a call that does not end the game leaves the next tick running |
| TowConfig.Defaults | Project_Tow/config.c:8-29 | the defaults form non-empty ranges, a missing percentage within 0..100, and thirteen worker processes |
| TowConfig.KeyValues | Project_Tow/config.c:52-83 | a plain key assigns one value of its field's kind; a range key assigns its minimum and maximum, the maximum only if the minimum converted |
| TowConfig.ApplyLine | Project_Tow/config.c:43-84 | a skipped, unsplittable or unknown-key line changes nothing; a known key sets only its own fields |
| TowConfig.ParseConfig | Project_Tow/config.c:32-40 | a missing file, and an empty one, leave exactly the defaults |
| TowConfig.ParseConfigLastWins | Project_Tow/config.c:43-84 | every field ends at the value of its last assigning line, or its default |
| TowConfig.SplitKnownLine | Project_Tow/config.c:45-50 | a `key=value` line for a known key is neither skipped nor mis-split |
| TowConfig.RangeLineSetsBoth | Project_Tow/config.c:62-67 | `gen_interval=a,b`, `rows=a,b` or `columns=a,b` sets the minimum to `a` and the maximum to `b`, and nothing else |
| TowShared.InitCounters | Project_Tow/shared_memory.c:47-53 | every file counter starts at zero |
| FileGenerator.AllocateIndex | Project_Tow/file_generator.c:75-78 | a file takes the number of files generated so far as its index, and that number rises by one |
| FileGenerator.AllocationsConsecutive | Project_Tow/file_generator.c:75-78 | successive allocations hand out consecutive, hence distinct, indices, and nothing else in the counters changes |
| FileGenerator.FileNameInjective | Project_Tow/file_generator.c:81 | distinct indices give distinct file names |
| FileGenerator.HeaderShape | Project_Tow/file_generator.c:94-99 | a header for `n` columns has exactly `n - 1` commas, no comma before its newline, and one newline |
| FileGenerator.CellOf | Project_Tow/file_generator.c:104-108 | a cell is missing exactly when the scaled draw falls below the missing percentage |
| FileGenerator.RowShape | Project_Tow/file_generator.c:102-111 | every data row has one comma per cell, missing or filled, and one newline |
| FileGenerator.CsvLines | Project_Tow/file_generator.c:94-111 | a file has one line more than it has data rows |
| FileGenerator.FileTextShape | Project_Tow/file_generator.c:93-111 | the file written for a plan of `rows` rows and `columns` columns (a count below 1 counting as 0) has `rows + 1` lines, `columns - 1` header commas, `columns` commas in every data row, and `columns - 1 + rows * columns` commas in all |
| FileGenerator.GeneratedFileShape | Project_Tow/file_generator.c:84-111 | for a plan whose counts lie in the row and column ranges, as those of `GenerateOnce` do, the file has between `rows_min + 1` and `rows_max + 1` lines, and each data row between `columns_min` and `columns_max` commas |
| FileGenerator.GenerateOnce | Project_Tow/file_generator.c:69-113 | a sleep range with `max = min - 1` traps before an index is taken, and such a row or column range traps after it. A failed create skips its index. Otherwise sleep, rows and columns lie in their ranges and the file is named after the index |
| Supervisor.SpawnChildren | Project_Tow/main.c:87-201 | one slot is written per successful fork, in order, and the stored forks are exactly the successful ones |
| Supervisor.VisualizationSlotOverflows | Project_Tow/main.c:78-198 | when every fork succeeds, one pid more is stored than the slots reserved |
| Supervisor.DefaultsOverflow | Project_Tow/main.c:78-198 | under the default configuration 13 slots are reserved and 14 pids stored |
| Supervisor.StoredPidsFit | Project_Tow/main.c:78-198 | with one slot per possible fork, the visualization included, every stored pid fits |
| Supervisor.ReadSnapshot | Project_Tow/main.c:213-218 | processed and not-processed files add up to the files generated |
| Supervisor.MinutesTest | Project_Tow/main.c:210-225 | `seconds / 60.0 > limit` holds exactly when `seconds > 60 * limit` |
| Supervisor.TerminateIffSomeCheckExceeded | Project_Tow/main.c:221-225 | the supervisor stops exactly when some counter, or the elapsed seconds, is strictly above its bound |
| Supervisor.ThresholdReachedIsNotEnough | Project_Tow/main.c:221-224 | counters exactly at their thresholds, with time not up, do not stop the run |
| Supervisor.TerminationMonotone | Project_Tow/main.c:221-225 | once met, the test stays met as the counters and the clock grow |
| Supervisor.Monitor | Project_Tow/main.c:204-237 | the supervisor stops at the first observation that meets the test, and not at all if none does |

## Left out

- Processes, threads, pipes, signals, `fork`/`execl`, `sleep` and the semaphores themselves. Each region protected by a semaphore is one step of the model, and the interleavings are not modelled.
- Shared-memory creation, mapping and cleanup (`shm_open`, `mmap`, `ftruncate`, `sem_init`) beyond the zeroing of the shared records.
- Randomness and wall-clock time. Every `rand()` result and every elapsed time is a parameter.
- All rendering and physics: both visualization programs, and the drawing and rope physics of Project_One/opengl_renderer.c.
- The calculators' column averages and the inspectors' directory scans, `stat` and `rename` in Project_Tow: not part of the modelled core.
- Floating point: C `double` and `float` values are exact reals, and `%.2f` cell text is a parameter.
- `atof` and `%f` read only decimals: optional sign, digits, and an optional fraction (`CScan.Atof`, `CScan.ScanDecimal`). There is no exponent, `inf`, `nan` or hexadecimal form. This applies to every real setting: the five `atof` keys of Project_Three/config.c:42-54, `missing_percentage` in Project_Tow/config.c, and the `%f,%f` of `value_range`. For example, `suspicion_threshold=1e-1` is 0.1 in C but 1.0 in the model.
- Buffer overflow in unbounded conversions: `%[^=]=%s` into `key[128]` and `value[128]` (Project_Three/config.c:25-27), and `%s` into `key[50]` (Project_One/main.c:55-58), have no field width. A long enough token from a 255-character line overflows the buffer in C. The model (`CScan.ScanKeyValue` with no width, `CScan.ScanWordInt`) reads the whole token, so such a line is an ordinary unknown key.
- Integer width: counters and ids are unbounded integers. No 32-bit wrap-around is modelled, nor the `malloc` of a negative or overflowing size.
- `fgets` chunking of lines longer than the buffer, and NUL bytes inside a line: each line of a file is one chunk.
- Referee.UpdateGameLogic: the pipe writes and reads are abstracted to the order list and already-parsed replies. A reply that `sscanf` cannot read is `None`. The physics update after a round is left out.
- PlayerProcess.HandleCommand: a `read` error (the `exit(EXIT_FAILURE)` path at Project_One/main.c:153-154) is left out. A closed pipe is the end of the command sequence.
- Watchdog.WatchdogCheck: the printed messages are left out.
- Supervisor.Monitor: the shutdown in `handle_signal` (kill and wait for `total_children` pids) is left out.
- FileGenerator.GenerateOnce: the generated values are left out. Only whether a cell is missing, and the layout of the text, are modelled.
- Referee.UpdateGameLogic: the first call reads the clock twice, once for `start_time` (opengl_renderer.c:328) and once for the elapsed time (:331). These are the two inputs `startClock` and `clock`, and nothing constrains how far apart they are. The first call always sends a round (`Referee.FirstRound`) and records the gap between the readings as `last_command_time`. Only when that gap is exactly 0.0 does the `last_command_time == 0.0` sentinel make the second call due at once too. The model keeps this behaviour (`Referee.CommandDue`) but does not list it as a finding.
- The replenishment pass at Project_Three/simulation.c:184-221 is never reached in the source. Its loop is guarded by `while (simulation_running)` and follows the creation loop of :88. That creation loop has no `break`, so it ends only by `pthread_exit` (:122, :129) or once `simulation_running` is 0. The flag starts at 1 (:16) and is only ever set to 0 (:21, :893). `ResistanceGroups.Replenish`, `TopUp` and `ReplenishAllSpawned` model what the pass would do if it ran, and nothing in the model calls them.

## Findings

| source | as written | input that shows it | evidently intended | confidence | as-written member | corrected member |
|---|---|---|---|---|---|---|
| Project_Three/simulation.c:357-445 | a member that is killed, severely injured, caught or arrested lowers its group's `current_member_count` inside the exit path and again after the loop | a group of 3 whose member is killed is left with 1 | one decrement per departing member, as the comment after the loop says | not executed | ResistanceGroups.KilledMemberCountedTwice | ResistanceGroups.ExitDecrementsOnce |
| Project_Tow/main.c:78-198 | `children_pids` holds one slot per worker, yet the visualization's pid is stored after the workers' pids | default configuration, every fork succeeding: 13 slots, 14 stores | one slot for every process forked, the visualization included | not executed | Supervisor.DefaultsOverflow | Supervisor.StoredPidsFit |
