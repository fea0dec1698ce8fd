# LeRobot commander and task augmentation, modelled in Dafny

This project models the decision logic of two scripts. The first is a robot
CLI commander (`cli.py`), which drives a leader and a follower SO-101 arm
through the lerobot executables. The second is a dataset augmentation script
(`data_augmentation.py`), which paraphrases the task descriptions of a
recorded dataset and repeats each recorded row once per task string.

Everything the scripts do outside that logic becomes a parameter:
- the operator's answers to `input()` are a sequence of strings, and running
  out of them stands for `EOFError`;
- the two serial-port listings are sets of device paths;
- the lerobot datasets of the local cache are the sorted list `existing`;
- the chat model's reply is a `Reply`;
- the outcome of the record subprocess and the installed lerobot version are a
  flag and a string.

The modules are:
- `Text`: Python's `strip`, `lstrip(chars)`, `upper`/`lower`, `split`, and
  `int()` on a string;
- `OrderedDict`: a Python dict as an insertion-ordered key list plus a map.
  Assigning to a key keeps an old key in its place and appends a new one;
- `Variations`: the parser of the chat reply, `generate_augmented_tasks`
  after its API call;
- `Augment`: `augment_batch`. It has the cache as an explicit parameter
  instead of the module-level `AUGMENTATION_CACHE`. It is a method whose loops
  mirror the source's three nested loops. It is proved equal to `Augmented`,
  a definition by rows, and the row-count, column-preservation, ordering and
  fallback properties are proved about that definition;
- `TaskCache`: `precompute_augmentations` and `review_augmentations`, with
  `review_augmentations` including its retry loop;
- `Config`: `load_config` and the `.env` rendering of `save_config`, plus a
  reader for the records it writes;
- `Ports`: removed-port detection and `assign_role`;
- `Commands`: the calibrate, teleoperate and record argument vectors and
  their port guards, the record menu, the record defaults and the tagging
  decision. Each vector is read back by an option parser `FlagValue`, and the
  lemmas state which value each option of the vector receives;
- `Commander`: the main menu and a `Commander` class. The class holds the
  config and the last files written, and Find Port updates it in place.

## Model

| member | source | states |
|---|---|---|
| Text.LStripSuffix | cli.py:80 | What the leading half of strip() keeps is a suffix of the answer |
| Text.LStrip | cli.py:80 | The leading half of strip(): only whitespace is dropped, from the front, and what remains does not start with whitespace |
| Text.RStrip | cli.py:80 | The trailing half of strip(): the result is a prefix of its argument, only whitespace is dropped, and what remains does not end with whitespace |
| Text.Strip | cli.py:80 | The result has no surrounding whitespace and is empty exactly when the input is all whitespace |
| Text.StripPadding | cli.py:80 | Whitespace around a trimmed core is removed and the core is kept intact |
| Text.LowerPadded | cli.py:311 | A padded single character strips and lower-cases to that character lower-cased |
| Text.LStripChars | data_augmentation.py:61 | lstrip('- ') removes exactly a leading run of the given characters, and what remains does not start with one |
| Text.LStripCharsSuffix | data_augmentation.py:61 | What lstrip('- ') keeps is a suffix of the line |
| Text.Upper | cli.py:36 | For ASCII text, key.upper() maps each lower-case letter to upper case and leaves every other character, keeping the length |
| Text.Lower | cli.py:311 | For ASCII text, .lower() maps each upper-case letter to lower case and leaves every other character, keeping the length |
| Text.Split | data_augmentation.py:61 | split('\n') yields at least one part and no part contains the separator |
| Text.JoinSplit | data_augmentation.py:61 | Joining the parts of a split with the separator gives back the original text |
| Text.DecimalString | data_augmentation.py:137 | Defines str(n) for an int, as the f-string "Task {task_idx}" prints it: "-" before a negative number, then the decimal digits without leading zeros |
| Text.PyInt | cli.py:213 | Defines int(s) in base 10: surrounding whitespace, an optional sign, then digits with single underscores between them; anything else is the ValueError (None) |
| Text.DecimalRoundTrip | cli.py:213 | int() of the decimal text of any integer gives that integer back |
| Text.DecimalTrimmed | cli.py:213 | The decimal text of an integer has no surrounding whitespace |
| OrderedDict.Empty | cli.py:20 | An empty dict has no keys |
| OrderedDict.Get | data_augmentation.py:137 | Defines d.get(k): the stored value, or None when k is not a key |
| OrderedDict.GetOr | cli.py:146 | Defines d.get(k, default): the stored value, or the default when k is not a key |
| OrderedDict.Set | cli.py:319 | d[k] = v makes k map to v, changes no other key, and keeps an old key's place or appends a new key |
| Variations.CleanLine | data_augmentation.py:61 | An item is cleaned of whitespace and bullets and has no surrounding whitespace |
| Variations.Take | data_augmentation.py:62 | A Python slice xs[:n] is a prefix of xs whose length follows Python's rule, including a negative n |
| Variations.Items | data_augmentation.py:61 | Defines the list comprehension: each line that is not blank after strip() contributes its cleaned item, in line order |
| Variations.ParseReply | data_augmentation.py:61-62 | Defines the parse of the reply text: the items of its '\n'-separated lines, cut to the first num_augs |
| Variations.Generate | data_augmentation.py:49-66 | Defines generate_augmented_tasks for one outcome of the chat call: the parsed reply text, or [] when the call raises |
| Variations.ItemsConcat | data_augmentation.py:61 | The items of concatenated lines are the concatenation of their items, so the list keeps line order |
| Variations.BlankLineIgnored | data_augmentation.py:61 | Inserting a whitespace-only line anywhere changes nothing |
| Variations.ItemsCount | data_augmentation.py:61 | There is exactly one item per non-blank line |
| Variations.ItemsTrimmed | data_augmentation.py:61 | Every item has no surrounding whitespace |
| Variations.ParseReplyShape | data_augmentation.py:61-62 | The parsed list is the first min(num_augs, non-blank lines) items, each trimmed |
| Variations.GenerateBound | data_augmentation.py:59-66 | At most num_augs variations are returned, and none when the call fails |
| Variations.BlankReply | data_augmentation.py:61-62 | A reply that is only whitespace yields no variations |
| Variations.NoItems | data_augmentation.py:61 | A whitespace-only reply has no non-blank line |
| Variations.AllBlank | data_augmentation.py:61 | Lines that join to whitespace are all blank |
| Variations.NoDashUnlessOtherWhitespace | data_augmentation.py:61 | With no whitespace other than spaces, an item never starts with '-' |
| Variations.TabAfterBullet | data_augmentation.py:61 | The line "-\t-word" yields the item "-word", which starts with '-' |
| Variations.DropBullet | data_augmentation.py:61 | lstrip('- ') stops at the tab of "-\t-word" |
| Variations.DropTab | data_augmentation.py:61 | The final strip removes the tab that lstrip('- ') left |
| Variations.DashWordTrimmed | data_augmentation.py:61 | "-word" is already stripped |
| Variations.StripInfix | data_augmentation.py:61 | Stripping introduces no new character |
| Variations.BareBullet | data_augmentation.py:61 | A reply "-" yields one empty item |
| Augment.TasksOf | data_augmentation.py:132-137 | One task list per input row |
| Augment.TasksOfAt | data_augmentation.py:137 | Row i's task list is cache.get(idx, ["Task idx"]) of its index |
| Augment.Show | data_augmentation.py:137 | Defines str(task_idx) as the f-string prints it |
| Augment.Fallback | data_augmentation.py:137 | Defines the placeholder "Task " + str(idx) |
| Augment.TaskStrings | data_augmentation.py:137 | Defines AUGMENTATION_CACHE.get(idx, [f"Task {idx}"]): the cached list, or the single placeholder when idx is not cached |
| Augment.OutputColumns | data_augmentation.py:125-127 | Defines new_columns: the batch's columns in order, with the task column appended when it is not one of them |
| Augment.Covered | data_augmentation.py:132-143 | Defines when no read batch[col][i] fails: every row that emits at least one row has a value in every column |
| Augment.Emit | data_augmentation.py:140-146 | Defines what one output row appends to a column: the input row's value for an input column, the task string for the task column, and both, value first, for a task column that was already an input column |
| Augment.RowOutput | data_augmentation.py:140-146 | Defines the inner loop: what one input row, copied once per task string in order, appends to a column |
| Augment.Expanded | data_augmentation.py:132-146 | Defines a column after the outer loop has processed the first m rows: those rows' outputs concatenated in row order |
| Augment.Augmented | data_augmentation.py:120-148 | Defines new_data: the output columns, each the expansion of every input row |
| Augment.CopyRow | data_augmentation.py:142-143 | Appends row i of every input column to the output and changes nothing else, or fails exactly when some column is shorter than i + 1 |
| Augment.ExpandRow | data_augmentation.py:140-146 | Appends one output row per task string. It fails exactly when the row has task strings and a column is too short |
| Augment.ExpandRows | data_augmentation.py:132-146 | Builds every output column as its row-by-row expansion, and fails exactly when some row cannot be copied |
| Augment.AugmentBatch | data_augmentation.py:120-148 | Raises KeyError without a task_index column and IndexError when a column is too short; otherwise returns the row-by-row expansion |
| Augment.AugmentedColumn | data_augmentation.py:140-146 | Every input column and the task column are output columns, each expanded row by row |
| Augment.AugmentedShape | data_augmentation.py:125-146 | The output columns are the input columns in order, then the task column if new. Each column holds one value per output row, where the output rows number the sum of the rows' task-list lengths; a pre-existing task column holds two per row |
| Augment.EqualLengths | data_augmentation.py:125-146 | When the task column is new, all output columns have the same length |
| Augment.ColumnPreserved | data_augmentation.py:140-143 | Output row RowCount(i) + j carries input row i's value in every other input column |
| Augment.RowOrigin | data_augmentation.py:132-146 | Every output row index is RowCount(i) + j for one input row i and one of its task strings j |
| Augment.EveryRowPreserved | data_augmentation.py:140-143 | Every output row carries, in every column other than task, the value of the input row it came from |
| Augment.TaskStringPlaced | data_augmentation.py:140-146 | Output row RowCount(i) + j holds row i's j-th task string, so the output is grouped by input row in input order and follows the cache order inside a row |
| Augment.TaskColumnDoubled | data_augmentation.py:142-146 | A pre-existing task column receives the input row's own value and then the task string for every output row |
| Augment.DoubledColumn | data_augmentation.py:142-146 | The two values an output row appends to a pre-existing task column, stated on the expansion |
| Augment.DoubledRow | data_augmentation.py:142-146 | The same two values, for any prefix of the rows |
| Augment.FallbackRow | data_augmentation.py:137 | An index absent from the cache yields exactly one output row, whose task string is "Task " + str(idx) |
| Augment.SameTaskTwice | data_augmentation.py:120-148 | Two rows with index v and cache {v: [p, q]} give four output rows, with the index repeated and the task strings p, q, p, q |
| Augment.TwoStringRow | data_augmentation.py:140-146 | A row with two task strings emits the first string's row, then the second's |
| Augment.RowOutputLength | data_augmentation.py:140-146 | A row expanded over ts appends len(ts) output rows to each column |
| Augment.ExpandedLength | data_augmentation.py:132-146 | Each output column has as many output rows as the processed rows' task lists have strings |
| Augment.RowOutputIndex | data_augmentation.py:140-146 | Within a row's expansion, the j-th output row comes from the j-th task string |
| Augment.ExpandedIndex | data_augmentation.py:132-146 | The output row numbered RowCount(i) + j is what row i emits for its j-th task string |
| Augment.ExpandedIndexOne | data_augmentation.py:132-146 | ExpandedIndex for a column that takes one value per output row |
| TaskCache.PrecomputeAugmentations | data_augmentation.py:106-118 | Caches every task of the mapping, in mapping order, as its description followed by the variations of its reply |
| TaskCache.PrecomputedEntries | data_augmentation.py:111-118 | The cache has exactly the mapping's keys, each entry headed by the task's description, with at most 3 variations |
| TaskCache.CachedAt | data_augmentation.py:116 | The k-th task's entry starts with its description |
| TaskCache.PrecomputedStep | data_augmentation.py:112-116 | Caching the next task keeps the tasks already cached |
| TaskCache.CacheTask | data_augmentation.py:112-116 | One pass of the loop: once the m-th task is cached, the first m + 1 tasks are cached in mapping order, each with its own reply's variations |
| TaskCache.OtherKeyKept | data_augmentation.py:116 | Caching one task leaves every other task's entry alone |
| TaskCache.Accepted | data_augmentation.py:116 | Defines the entry [task_str] + variations |
| TaskCache.Decide | data_augmentation.py:208-219 | Defines the reading of the answer after strip().lower(): r retries, n keeps the original alone, anything else keeps the original and the variations |
| TaskCache.Kept | data_augmentation.py:202-219 | Defines what a settling round stores: the decision on that round's answer, with the variations of that round's reply |
| TaskCache.SettlingRound | data_augmentation.py:200-219 | Finds the first round from a position whose answer is not 'r', the rounds before it all being retries, or reports that every remaining answer retries |
| TaskCache.ReviewTask | data_augmentation.py:200-219 | A task is settled after at least one round, and only if some round from its first does not answer 'r' |
| TaskCache.ReviewTaskAt | data_augmentation.py:199-219 | A review settled at round k keeps what that round keeps and resumes at round k + 1 |
| TaskCache.KeptEither | data_augmentation.py:208-219 | A round whose answer is not r keeps the original alone or the original plus that round's variations |
| TaskCache.DecideKeeps | data_augmentation.py:208-219 | Any answer other than r keeps, either the original alone or the original plus the variations |
| TaskCache.ReviewTaskKept | data_augmentation.py:210-219 | A settled task keeps its original alone or the original plus the variations of the round that settled it |
| TaskCache.KeptShape | data_augmentation.py:214-218 | A kept entry starts with the original and holds at most 3 variations |
| TaskCache.ReviewOne | data_augmentation.py:200-219 | The retry loop for one task computes ReviewTask: it asks again on 'r' and stops at the first other answer |
| TaskCache.ReviewFrom | data_augmentation.py:196-221 | Defines the for loop from the i-th task on: each task reviewed in mapping order, starting at the round after the previous task settled, or None when the answers run out |
| TaskCache.Review | data_augmentation.py:190-221 | Defines the cache review_augmentations returns: the review of every task from an empty cache, or None (EOFError) |
| TaskCache.ReviewAugmentations | data_augmentation.py:190-221 | The whole review loop, task by task in mapping order, computes Review |
| TaskCache.ReviewFromStep | data_augmentation.py:197-219 | Reviewing continues with the next task after recording the current task's entry |
| TaskCache.ReviewedStep | data_augmentation.py:214-218 | Recording an entry headed by the original keeps the reviewed-prefix invariant |
| TaskCache.ReviewFromShape | data_augmentation.py:197-221 | A completed review from any point covers all remaining tasks |
| TaskCache.ReviewShape | data_augmentation.py:190-221 | A completed review has exactly the mapping's keys, in order, each entry headed by the task's description, with at most 3 variations |
| TaskCache.ReviewedAll | data_augmentation.py:197-221 | A fully reviewed cache has the mapping's keys with entries headed by their originals |
| TaskCache.ReviewedAt | data_augmentation.py:214-218 | The k-th task's reviewed entry starts with its description |
| TaskCache.ReviewFromNeedsRounds | data_augmentation.py:200-208 | With fewer rounds left than tasks, the input runs out |
| TaskCache.EndOfInput | data_augmentation.py:208 | The review needs one answer per task at least; with fewer, input ends before the cache is complete |
| TaskCache.RepliesOf | data_augmentation.py:202 | The reply of each round, in order |
| TaskCache.AcceptedRound | data_augmentation.py:216-219 | An accepting answer settles the task in that round with the original plus the variations |
| TaskCache.AcceptFrom | data_augmentation.py:197-219 | When every answer accepts, the rest of the review caches what the unattended builder caches |
| TaskCache.AcceptAllIsPrecompute | data_augmentation.py:106-118 | Accepting every proposal builds the same cache as precompute_augmentations |
| TaskCache.DecideBlank | data_augmentation.py:216-218 | A blank answer accepts: the original plus the variations, so zero variations give the original alone |
| TaskCache.DecideYes | data_augmentation.py:216-218 | "yes" accepts, like any answer other than 'n' and 'r' |
| TaskCache.DecideRetries | data_augmentation.py:210-211 | 'r' or 'R', padded or not, retries and writes nothing |
| TaskCache.DecideRejects | data_augmentation.py:212-215 | 'n' or 'N' keeps the original alone |
| TaskCache.OriginalFirst | data_augmentation.py:137-146 | With a reviewed cache, the first output row of an input row with a known index carries the task's original description |
| Config.LoadConfig | cli.py:14-21 | A missing or undecodable file gives an empty config; otherwise the config is the decoded object |
| Config.EnvLine | cli.py:29-36 | Defines one write record NAME="value", without the newline written after it |
| Config.EnvLinesFor | cli.py:28-36 | Defines the records of one setting: LEADER_PORT and TELEOP_PORT for the leader port, FOLLOWER_PORT and ROBOT_PORT for the follower port, the upper-cased key otherwise |
| Config.EnvLines | cli.py:27-36 | Defines the whole .env file as its write records, setting by setting in key order |
| Config.ParseEnvLine | cli.py:29-36 | Reader helper: defines reading a record back, the name before the first '=' and the value between the quotes after it |
| Config.RenderEnv | cli.py:27-36 | The loop over the config's items writes exactly EnvLines, the write records of each key in key order |
| Config.EnvLinesStep | cli.py:28-36 | One more key appends its records after those of the keys before it |
| Config.IndexOf | cli.py:30-36 | Reader helper: finds the first '=' of a record, or reports that there is none |
| Config.EnvLineRoundTrip | cli.py:30-36 | A write record NAME="value", read as one record, gives back that name and value, whatever the value holds |
| Config.PortLinesRoundTrip | cli.py:29-34 | The four port variable records read back as their names and the port |
| Config.EnvLineCount | cli.py:28-36 | The file has one write record per key plus one more for each port key present |
| Config.EnvLinesCount | cli.py:28-36 | Each key writes one record, a port key two |
| Config.PortCountDistinct | cli.py:28-34 | Distinct keys contain each port key at most once |
| Config.EnvLinesAppend | cli.py:28-36 | The records of two key runs are the records of each, in turn |
| Config.EnvKeyBlock | cli.py:28-36 | A key's records sit between those of the keys before and after it |
| Config.EnvLinesAt | cli.py:28-36 | The leader port is written as LEADER_PORT then TELEOP_PORT, the follower port as FOLLOWER_PORT then ROBOT_PORT, and any other key as its upper-case name |
| Ports.SingletonUnique | cli.py:58-59 | A one-element set has a single element |
| Ports.RemovedPort | cli.py:55-59 | A port is found exactly when one port disappeared, and it is that port |
| Ports.UnplugOne | cli.py:55-59 | Unplugging exactly one listed port reports that port |
| Ports.NothingRemoved | cli.py:55-61 | When no port disappeared, none is reported, whatever was plugged in |
| Ports.DecodeRole | cli.py:80-88 | Defines the meaning of one answer after strip(): "1" the leader key, "2" the follower key, "3" cancel, anything else invalid |
| Ports.AssignedRole | cli.py:79-88 | assign_role returns only leader_port or follower_port |
| Ports.AssignRole | cli.py:79-88 | The prompt loop computes AssignedRole, reprompting past invalid answers |
| Ports.FirstDecisive | cli.py:79-88 | The first answer that is 1, 2 or 3 decides the role; earlier answers are ignored |
| Ports.NoDecisive | cli.py:79-88 | With no decisive answer, the prompt reads past the end of the input |
| Ports.RoleAnswers | cli.py:80-88 | "1" and "2", with surrounding whitespace, pick the leader and the follower; "3" cancels and assigns nothing |
| Ports.PaddedNumberInvalid | cli.py:80-88 | "01" is not "1": the prompt is asked again |
| Commands.FlagRead | cli.py:106-111 | An option reads back its value |
| Commands.FlagsDistinct | cli.py:106-111 | An option never sets another option's name |
| Commands.FlagSkip | cli.py:106-111 | A parser looking for one option skips arguments that set others |
| Commands.ProgramSkip | cli.py:106-107 | The program name sets no option |
| Commands.SkipFlag | cli.py:254-268 | An option at a position is skipped by a reader of another option |
| Commands.ReadFlag | cli.py:254-268 | An option at a position is read by a reader of that option |
| Commands.SkipProgram | cli.py:254-255 | The program name is skipped |
| Commands.FlagValueAppend | cli.py:254-268 | Reader helper: the first setting of an option wins |
| Commands.ProgramNone | cli.py:254-255 | A command line holding only the program sets no option |
| Commands.PortOf | cli.py:101-102 | A port counts as set exactly when its key is present and its value is not empty, as Python's truthiness decides |
| Commands.RobotArgsHit | cli.py:158-163 | The follower options carry the follower port and the camera spec |
| Commands.RobotArgsMiss | cli.py:158-163 | The follower options set nothing but the four robot options |
| Commands.LeaderArgsHit | cli.py:164-166 | The leader options carry the leader port and the leader type |
| Commands.LeaderArgsMiss | cli.py:164-166 | The leader options set nothing but the three teleop options |
| Commands.SingleFlagMiss | cli.py:106-111 | A single option sets no other name |
| Commands.Flag | cli.py:106-124 | Defines one "--name=value" argument |
| Commands.FlagValue | cli.py:106-124 | Reader helper: defines the value the first argument setting an option gives it |
| Commands.RobotArgs | cli.py:160-163 | Defines the follower options: type so101_follower, the follower port, id Follower, and the camera spec |
| Commands.LeaderArgs | cli.py:164-166 | Defines the leader options: type so101_leader, the leader port, and id Leader |
| Commands.CalibrateLeaderArgv | cli.py:106-111 | Defines the leader calibration command: lerobot-calibrate followed by the leader options |
| Commands.CalibrateFollowerArgv | cli.py:119-124 | Defines the follower calibration command: lerobot-calibrate with type so101_follower, the follower port and id Follower, and no camera option |
| Commands.Cameras | cli.py:146 | Defines config.get("robot_cameras", "None") |
| Commands.TeleopArgv | cli.py:158-168 | Defines the teleoperation command: lerobot-teleoperate, the follower options, the leader options, then display_data=True |
| Commands.CalibrationLaunch | cli.py:100-130 | A command runs exactly when 1 or 2 was chosen and that arm's port is set; an unset port refuses, 3 cancels, and anything else is invalid |
| Commands.CalibrateLeaderFlags | cli.py:106-111 | Leader calibration passes the leader port as teleop.port, the leader type, and no robot port |
| Commands.CalibrateFollowerFlags | cli.py:119-124 | Follower calibration passes the follower port as robot.port, the follower type, and no teleop port |
| Commands.CalibrationFlags | cli.py:100-124 | The answers "1" and "2", with surrounding whitespace, launch the leader's or the follower's calibration with that arm's port, type, and no port of the other arm |
| Commands.TeleopLaunch | cli.py:144-168 | Teleoperation runs exactly when both ports are set, and is refused otherwise |
| Commands.ArmsPrefix | cli.py:158-166 | A command line starting with the two arms' options reads each option from them first |
| Commands.TeleopFlags | cli.py:144-168 | robot.port is the follower port, teleop.port is the leader port, and robot.cameras is the configured value or "None" |
| Commands.DecodeRecordChoice | cli.py:213-231 | Only a number from 1 to n resumes a dataset, and it resumes a listed one |
| Commands.MenuNumbers | cli.py:213-231 | Choice k in 1..n resumes dataset k - 1, n + 1 is new, n + 2 cancels, anything else reprompts |
| Commands.MenuWord | cli.py:213-233 | A non-number reprompts |
| Commands.RecordMenu | cli.py:211-233 | Defines the dataset menu read from one answer on: a resume choice ends it, a new-dataset choice takes one more answer as the name and goes back to the menu when that is empty, cancel ends it, anything else reprompts, and None stands for the input running out |
| Commands.ReadRecordMenu | cli.py:211-233 | The menu loop computes RecordMenu on the answers |
| Commands.MenuSelection | cli.py:211-233 | A resumed dataset is a listed one with resume "true"; a new one has a non-empty stripped name and resume "false" |
| Commands.ResumeChoice | cli.py:214-219 | Choice k in 1..n resumes dataset k - 1 |
| Commands.NewChoice | cli.py:220-227 | Choice n + 1 with a non-empty name starts that dataset, stripped |
| Commands.EmptyNameReprompts | cli.py:222-225 | Choice n + 1 with an empty name asks again from the start |
| Commands.CancelChoice | cli.py:228-229 | Choice n + 2 cancels |
| Commands.OrDefault | cli.py:236-242 | An answer that strips to nothing takes the default; any other answer is used stripped |
| Commands.DefaultsTrimmed | cli.py:238-242 | The defaults "generic task" and "5" are non-empty and trimmed |
| Commands.RepoId | cli.py:244 | Defines the repository id "lehungry-robotum/" + name |
| Commands.RecordArgv | cli.py:254-268 | Defines the record command: lerobot-record, the follower options, the leader options, display_data=true, the repo id, episode count and task, then the resume flag |
| Commands.RunRecord | cli.py:182-188 | Recording is refused exactly when either port is unset |
| Commands.AfterMenu | cli.py:211-268 | After the port guard, the outcome is never a port refusal |
| Commands.StartRecording | cli.py:236-268 | With the three answers after the menu, a command line is built |
| Commands.DatasetArgsRead | cli.py:263-267 | The dataset options read back the repo id, episode count, task and resume flag |
| Commands.RecordArmFlags | cli.py:254-262 | The record command passes the follower port, the leader port and the camera spec |
| Commands.RecordDatasetFlags | cli.py:254-268 | The record command passes the repo id, episode count, task and resume flag |
| Commands.StartFlags | cli.py:236-268 | The command line carries the ports, cameras, "lehungry-robotum/" + name, the resume flag, and the task and episode answers with their defaults |
| Commands.RecordFlags | cli.py:182-268 | Any recording has both ports set and a menu selection; its command passes the ports, cameras, repo id, resume flag, and a non-empty trimmed task and episode count |
| Commands.RecordTagging | cli.py:270-281 | A tag is requested exactly when the recording succeeded and resume is "false". It names the recorded repository and is "v" + version |
| Commands.RecordCancel | cli.py:228-229 | Choosing n + 2 ends the recording step with nothing run |
| Commands.RecordResumeDefaults | cli.py:213-268 | Resuming with blank answers records with the "generic task" task and "5" episodes and no tag |
| Commands.ResumeMenu | cli.py:213-219 | A resume choice goes straight to the task, episode and start prompts |
| Commands.StartBlank | cli.py:236-244 | Blank task and episode answers take their defaults |
| Commands.BlankDefaults | cli.py:236-242 | An empty or blank answer gives the default |
| Commander.MainChoice | cli.py:311-337 | Only "1" to "4" and "q", after stripping and lower-casing, are options; "q" quits |
| Commander.QuitAnswer | cli.py:311-335 | 'q' or 'Q', padded with whitespace, quits |
| Commander.NumberAnswers | cli.py:311-337 | "4" records while "04" is an invalid option |
| Commander.Commander.constructor | cli.py:293 | The commander starts from the config load_config finds, with nothing yet written |
| Commander.Commander.Save | cli.py:23-36 | Saving rewrites both files from the config and leaves the config unchanged |
| Commander.Commander.FindPort | cli.py:313-322 | A uniquely removed, non-empty port is stored under the assigned role and saved; otherwise nothing changes |
| Commander.StoredPortSet | cli.py:319 | After the update, the role's port is set to the found port |
| Commander.StoredPortSaved | cli.py:319-320 | After the update and save, the .env file holds the port on two consecutive records under the role's two names |
| Commander.PortLines | cli.py:28-34 | A stored port is written in two consecutive records under its two names |
| Commander.OtherPortKept | cli.py:319 | Storing one role's port leaves the other role's port as it was |

## Left out

- Process control is not modelled: running the lerobot executables, with
  `CalledProcessError`, `FileNotFoundError` and `KeyboardInterrupt`
  (cli.py:132-139, 170-177, 270-290). Whether the record run succeeded is a
  parameter of `Commands.RunRecord`.
- Hardware and file I/O are not modelled: serial-port enumeration (cli.py:40),
  reading and writing config.json and .env, and the directory listing of
  local datasets (cli.py:191-199). The two port listings, the decoded config
  file and the sorted dataset names are inputs.
- JSON encoding and decoding are not modelled. `Config.LoadConfig` receives
  the decoding's outcome, and the config is taken to hold string values as
  the commander writes them.
- The network calls are not modelled: the OpenAI chat call (the model's
  reply is a `Reply` parameter), the Hub listing, download and tagging,
  `load_dataset`, and `push_to_hub`.
- The start-up secrets checks and `main` of data_augmentation.py are not
  modelled.
- `load_task_mapping` and `get_target_dataset` are not modelled. The task
  mapping is an input.
- The `dataset.map(batched=True)` orchestration is not modelled.
  `Augment.AugmentBatch` covers one batch.
- generate_augmented_tasks's early return without an API key is not
  modelled: the start-up check already exits in that case, so the branch is
  dead.
- Prompts and printed messages are not modelled, and neither are the
  confirmation Enter prompts of find-port and teleoperation. The
  teleoperation prompt's EOFError is not modelled either.
- The main menu's endless loop is not modelled as a loop. `Commander.MainChoice`
  decodes one answer, and `Commander.Commander.FindPort` performs option 1 on
  the commander's state.
- The lerobot version string is a parameter of `Commands.RunRecord`.
- Text.Upper: `upper` converts only the ASCII letters. The keys written to .env at cli.py:36 are the commander's own ASCII keys.
- Text.Lower: only ASCII letters are lowered, and the model keeps the length, which Python's `lower` does not for every character (it maps 'İ' to two characters). The answers that are compared after lowering, at cli.py:311 and data_augmentation.py:208, are compared with ASCII literals. Those comparisons come out the same either way.
- Commands.RecordTagging: the tag is only requested. A failing `create_tag` is caught and reported as a warning (cli.py:283-284), so the tag may not exist afterwards. The model does not represent whether the request succeeds.
- Text.PyInt: `int()` accepts only ASCII digits, not other Unicode decimal
  digits.
- Variations.NoDashUnlessOtherWhitespace: an item can start with '-' in
  general, so this property is proved only for lines whose only whitespace
  is spaces. `Variations.TabAfterBullet` shows why: the line "-\t-word"
  yields "-word".
- Config.EnvLines: each element is one write record of save_config without the newline written after it. The records are the lines of the .env file only when no config key or value holds a '\n'. json.load accepts such a value, for example a hand-edited robot_cameras. Config.EnvLineRoundTrip and Config.EnvLineCount are therefore stated for records, not for the lines a reader of the file would split it into.
- Commander.Commander.FindPort: the config's key order after the update is
  stated through `OrderedDict.Set`; the printed confirmation is not modelled.
