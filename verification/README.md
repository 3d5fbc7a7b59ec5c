# JobMatch assignment engine in Dafny

This project models the assignment engine of JobMatch. JobMatch assigns course sections to instructors. Each instructor has an ordered preference list, a maximum number of sections (`max_classes`) and a limit of two distinct courses. Each course has a number of sections still available.

The model covers these parts of the program:

- **Entity records** (`entities.dfy`, module `Entities`).
  - `Instructor`, `Course` and the per-run `AssignmentTracker` are classes whose lists, sets and counters change in place.
  - `can_teach` and `can_assign` are functions over those fields.
  - `assign_course` and the grant step the solvers share are methods.
  - `AssignmentTracker` is imported by the solvers, but the entity module shown does not define it. It is modelled as an assumption, after `tests/test_dataclasses.py`: a fresh, empty shadow of an instructor that clamps to `max_classes` and refuses a third distinct course.
- **Preference ranking** (`ranking.dfy`, module `Ranking`).
  - `create_preference_tuples` builds each instructor's table. Listed courses get their 1-based position and unlisted catalog courses get `len(courses)`. The table is sorted by `(rank, course)`.
  - `print_matching_results` computes the 1-based match ranks.
- **Preference text** (`normalize_preferences.dfy`, module `PreferenceText`): the free-text cleaner `normalize_preferences`. Each regular expression is a scanner with Python's leftmost, non-overlapping semantics.
- **Stable-marriage solver** (`stable_marriage.dfy`, module `StableMarriage`): a FIFO queue of instructors. Each instructor proposes to the next course on its list, and grants are greedy and never revoked.
- **Iterative bipartite solver** (`bipartite.dfy`).
  - `build_network` builds the graph, with exact rational weights.
  - The round loop commits matched pairs.
  - The maximum-weight matching is a parameter `matcher` that may return any pairs.
- **Iterative linear-programming solver** (`linear_program.dfy`, `lp_rounds.dfy`).
  - Instructors are split into numbered sections.
  - The eligibility filters, the commit loop and the greedy post-fill are modelled.
  - The binary program's solutions are a parameter `choose` that may pick any pairs.
- **Genetic algorithm pieces** (`genetic.dfy`, `genetic_fitness.dfy`, `genetic_population.dfy`, `genetic_replay.dfy`).
  - The name-keyed dictionaries of the genetic code keep the last record of a name. The model looks records up the same way, so instructors or courses that share a name are handled as the code handles them.
  - Crossover and mutation.
  - The integer fitness function.
  - The initial population, with the random draws passed in as functions.
  - The final selection and the replay of the best chromosome onto the records.
- **Orchestrator** (`jobmatch.dfy`, module `Orchestrator`): the `JobMatch` class.
  - It dispatches a solver by name.
  - It recomputes the ranking tables.
  - It runs every solver on deep copies, so the records it holds are never changed.
- **Spreadsheet loading** (`column_names.dfy`, `preference_columns.dfy`, `validate_columns.dfy`, `row_preferences.dfy`):
  - the column-name rewrite;
  - the renaming of preference columns;
  - the required-column and sequential-numbering checks;
  - the extraction of an instructor row's preferences.
- **Shared helpers**: `text.dfy` models the Python string primitives the code relies on: `isspace`, `strip`, ASCII lower-casing, `str(n)` and `int(s)`. `wrappers.dfy` holds the `Option` and `Result` types. A `Result` error stands for a raised exception.

The properties proved include:

- **Safety, for any oracle output.** No instructor exceeds `max_classes` or two distinct courses, and no course goes below zero sections.
- **Conservation per course.** The assigned-instructor list only grows, and by exactly what the remaining count loses.
- **Termination.** The number of remaining proposals bounds the queue loop, and the total of remaining sections bounds the round loops.
- **Stopping conditions.** Each solver's loop stops only for the reasons its code gives.
- **Exact graph structure and weights.**
- **Determinism of the ranking table.** A sorted table is fixed by its entries, so set iteration order does not matter.
- **Error conditions, in both directions.** An unknown course in a preference list, an unknown solver name, duplicate preference suffixes, missing columns, and an empty pool of section ids in the genetic initialiser.

Where the documentation and the code disagree, the model follows the code:

- The `JobMatch` constructor only stores its two lists. There is no course-director pre-assignment.
- The stable-marriage and bipartite solvers have no fallback after their loops.
- Genetic gene ids use the `_section_` separator.
- The stable-marriage solver never revokes a grant, although its docstring speaks of rejection.

## Model

| member | source | states |
|---|---|---|
| Entities.GrantedSlots | jobmatch/dataclasses.py:32-34 | The number of copies `assign_course` appends is at most `slots` (none for a negative request). It keeps the list within `max_classes`, and it is positive whenever both the request and the room are. |
| Entities.Teachable | jobmatch/dataclasses.py:14-27 | `can_teach` holds iff the list is below `max_classes` and either fewer than two distinct courses are held or the course is one of them. The degree never changes the answer. |
| Entities.Instructor.constructor | jobmatch/dataclasses.py:5-12 | Every field of the record is as given. |
| Entities.Instructor.CanTeach | jobmatch/dataclasses.py:14-27 | On the record's own fields: true iff there is room under `max_classes` and the course is not a new third course. |
| Entities.Instructor.AssignCourse | jobmatch/dataclasses.py:29-36 | The list is the old list plus exactly `GrantedSlots` copies of the course, so old entries and their order are kept. The course joins the set iff at least one copy was granted. `len <= max_classes` and `set == set(list)` are preserved. The two-course cap is kept only when `can_teach` held beforehand. |
| Entities.Course.constructor | jobmatch/dataclasses.py:61-68 | Every field of the record is as given. |
| Entities.Course.GrantSections | jobmatch/stable_marriage.py:58-59 | The assigned list grows by `n` copies of the instructor's name exactly as `sections_available` falls by `n`. |
| Entities.AssignmentTracker.constructor | tests/test_dataclasses.py:52-59 | A tracker starts for its instructor with empty lists and a zero count, and satisfies its invariant. |
| Entities.AssignmentTracker.CanAssign | tests/test_dataclasses.py:23-50 | `can_assign` holds iff `course_count < max_classes` and the course is not a new third course. |
| Entities.AssignmentTracker.AssignCourse | tests/test_dataclasses.py:52-63 | The tracker appends the clamped number of copies. `course_count == len(list) <= max_classes` and `set == set(list)` hold afterwards. The two-course cap is kept when `can_assign` held. |
| Entities.FindCourse | jobmatch/bipartite_graph_match.py:87 | `next(...)` over the catalog: the first course of that name, or none exactly when no course has it. |
| Entities.FindInstructor | jobmatch/bipartite_graph_match.py:85-86 | The first instructor of that name, or none exactly when no instructor has it. |
| Entities.LastInstructor | jobmatch/genetic_algorithm.py:155 | A dict built by name keeps the last instructor of that name: no later instructor bears it. None is found exactly when no instructor has it. |
| Entities.LastCourse | jobmatch/genetic_algorithm.py:154 | A dict built by name keeps the last course of that name: no later course bears it. None is found exactly when no course has it. |
| Entities.LastInstructorIsFirst | jobmatch/genetic_algorithm.py:155 | With distinct names, the dict lookup and `next(...)` find the same instructor. |
| Entities.LastCourseIsFirst | jobmatch/genetic_algorithm.py:154 | With distinct names, the dict lookup and `next(...)` find the same course. |
| Entities.OpenCourses | jobmatch/bipartite_graph_match.py:67 | `eligible_courses` keeps at most the catalog's courses. |
| Entities.OpenCoursesSpec | jobmatch/bipartite_graph_match.py:67 | Exactly the courses with a section left are eligible. The list is empty iff every course is full. |
| Entities.OpenComplete | jobmatch/linear_program_optimization.py:49 | Every course with a positive count is eligible. |
| Entities.OpenSound | jobmatch/linear_program_optimization.py:49 | Every eligible course is a catalog course with a positive count. |
| Entities.BooksGrant | jobmatch/bipartite_graph_match.py:103-105 | A grant of `g <= sections` of a course to an instructor keeps the books. Loads hold only catalog courses, and each course's list grew by exactly what its count lost. |
| Entities.NewTrackers | jobmatch/stable_marriage.py:25 | There is one fresh, empty, valid and distinct tracker per instructor, in order. |
| Entities.MergeTrackers | jobmatch/stable_marriage.py:66-69 | Each instructor's list is extended by exactly its own tracker's list, and its set is unioned with the tracker's set. |
| Entities.Grant | jobmatch/stable_marriage.py:54-59 | The grant is `min(max_classes - course_count, sections_available)` when `can_assign` holds and that amount is positive, and none otherwise. It is recorded on the tracker and the course alike, and the tracker stays valid. |
| Entities.TrackerClampsToCapacity | tests/test_dataclasses.py:41-50 | A request above capacity leaves the tracker at `max_classes`, and it then refuses another course. |
| Entities.TrackerRefusesThirdCourse | tests/test_dataclasses.py:23-39 | After two courses a new third course is refused. A repeat is allowed until the load is full, and then refused. |
| Entities.AssignWithoutCheckExceedsCourseCap | tests/test_dataclasses.py:65-73 | Calling `assign_course` without `can_assign` reaches three distinct courses. The tracker then refuses a fourth. |
| Ranking.StrLeTotal | jobmatch/preprocessing.py:188 | Python string order is total. |
| Ranking.StrLeAntisymmetric | jobmatch/preprocessing.py:188 | Python string order is antisymmetric. |
| Ranking.StrLeTransitive | jobmatch/preprocessing.py:188 | Python string order is transitive. |
| Ranking.PrefLeTotal | jobmatch/preprocessing.py:188 | The sort key `(rank, course)` is total. |
| Ranking.PrefLeAntisymmetric | jobmatch/preprocessing.py:188 | Two entries with equal keys are the same entry. |
| Ranking.PrefLeTransitive | jobmatch/preprocessing.py:188 | The sort key is transitive. |
| Ranking.Insert | jobmatch/preprocessing.py:188 | Insertion adds exactly the new entry to the multiset. |
| Ranking.InsertSorted | jobmatch/preprocessing.py:188 | Inserting into a sorted table keeps it sorted. |
| Ranking.SortPreferences | jobmatch/preprocessing.py:188 | `list.sort` by `(rank, course)` yields a sorted permutation of its input. |
| Ranking.SortedSameHead | jobmatch/preprocessing.py:188 | Two sorted tables with the same entries start with the same least entry. |
| Ranking.SortedUnique | jobmatch/preprocessing.py:188 | A sorted table is determined by its multiset of entries, so the result does not depend on set iteration order. |
| Ranking.ListedEntries | jobmatch/preprocessing.py:179-180 | The i-th listed course (0-based) gets rank `i + 1`. |
| Ranking.RankingTableUnique | jobmatch/preprocessing.py:183-188 | Any two tables built for the same preferences and catalog are equal, whatever order the missing set is walked in. |
| Ranking.RankingTableEntries | jobmatch/preprocessing.py:173-185 | An entry is in a non-empty table iff it is a listed course at its 1-based position or an unlisted catalog course at rank `len(courses)`. |
| Ranking.TableLengthIsCatalogSize | jobmatch/preprocessing.py:179-185 | With distinct listed courses drawn from a catalog of distinct names, `len(preferences) + len(catalog - preferences)` is the catalog size. |
| Ranking.ListPreferences | jobmatch/preprocessing.py:179-180 | The `enumerate(..., start=1)` loop yields exactly `ListedEntries`. |
| Ranking.AppendMissing | jobmatch/preprocessing.py:183-185 | The loop appends each missing course once, at `max_rank`, in whatever order. |
| Ranking.RankPreferences | jobmatch/preprocessing.py:168-191 | One instructor's table satisfies `IsRankingTable`. It is empty for empty preferences, and its length is `len(preferences) + len(catalog - preferences)` otherwise. |
| Ranking.CreatePreferenceTuples | jobmatch/preprocessing.py:148-193 | The keys are exactly the instructors' names. Each name maps to the ranking table of the last instructor with that name. |
| Ranking.MatchRank | jobmatch/preprocessing.py:213-218 | The rank is `index + 1` of the first occurrence if the course is listed, and `len(list) + 1` otherwise. It is at most `len(list)` iff the course is listed. |
| Ranking.MatchRanks | jobmatch/preprocessing.py:209-222 | There is one match rank per assigned course, in order. |
| Ranking.PrintMatchingResults | jobmatch/preprocessing.py:196-222 | The KeyError is raised iff some instructor with a non-empty assignment is missing from the preference map. Otherwise the keys are the assignment keys and each list holds the match ranks. |
| Ranking.RankCourses | jobmatch/preprocessing.py:212-220 | The inner loop computes `MatchRanks`. |
| Ranking.IndexOf | jobmatch/preprocessing.py:215 | `list.index` returns the first position holding the element, which is its match rank minus one. |
| PreferenceText.ReplaceDoubleSlash | jobmatch/preprocessing.py:51 | `replace('//', ';')` never lengthens the text. |
| PreferenceText.SpaceRun | jobmatch/preprocessing.py:54-56 | `\s*` matches the longest leading run of whitespace. |
| PreferenceText.DigitRun | jobmatch/preprocessing.py:65 | `\d+` matches the longest leading run of digits. |
| PreferenceText.MatchLength | jobmatch/preprocessing.py:54-56 | A match of a course-identifier pattern never runs past the text. |
| PreferenceText.SplitOnSeparators | jobmatch/preprocessing.py:59 | `re.split(r"[;,]")` gives at least one piece, and no piece holds `;` or `,`. |
| PreferenceText.RemoveJunk | jobmatch/preprocessing.py:68 | Only the characters of `[a-zA-Z0-9\s?:/-]` survive. |
| PreferenceText.CollapseSpaces | jobmatch/preprocessing.py:71 | Whitespace runs become single spaces. The result is single-spaced, and clean when the input held only kept characters. It is empty iff the input is, and starts with a space iff the input starts with whitespace. |
| PreferenceText.InfixKeepsShape | jobmatch/preprocessing.py:71 | Any infix of a single-spaced, clean string is single-spaced and clean. |
| PreferenceText.StripKeepsShape | jobmatch/preprocessing.py:71 | `strip()` keeps a string single-spaced and clean. |
| PreferenceText.CleanPieceWellFormed | jobmatch/preprocessing.py:65-71 | Every cleaned piece holds only `[a-zA-Z0-9 ?:/-]`, has single inner spaces and has no whitespace at either end. |
| PreferenceText.KeepCoursesKept | jobmatch/preprocessing.py:74-75 | Every piece the filter keeps starts with PS, SocSci, FAS or a digit, ignoring case, and stays well formed. |
| PreferenceText.KeptPiecesKept | jobmatch/preprocessing.py:63-75 | Every collected piece is well formed and starts like a course. |
| PreferenceText.KeepCleanPieces | jobmatch/preprocessing.py:62-75 | The loop over the split pieces collects exactly the cleaned pieces that pass the prefix filter, in order. |
| PreferenceText.NormalizePreferences | jobmatch/preprocessing.py:39-77 | The result is what the rewrite, split, clean and filter pipeline gives. Every item starts with PS, SocSci, FAS or a digit, ignoring case. It contains no `;` or `,`, has single inner spaces and has no surrounding whitespace. |
| StableMarriage.SlackStep | jobmatch/stable_marriage.py:62-63 | Advancing one instructor's proposal cursor lowers the remaining proposals by exactly one. |
| StableMarriage.ClosedPersists | jobmatch/stable_marriage.py:54-59 | A course closed to an instructor stays closed while sections only shrink and a two-course set stays put. |
| StableMarriage.MissingReported | jobmatch/stable_marriage.py:48-52 | A preference naming no course is reported with its KeyError text, and the catalog then does not cover every preference. |
| StableMarriage.Propose | jobmatch/stable_marriage.py:47-59 | The lookup succeeds iff the course exists, and nothing changes when it does not. The tracker only grows, with courses its instructor listed, within its caps. Each course's list grows by exactly what its count loses. |
| StableMarriage.GrantedSinceStep | jobmatch/stable_marriage.py:58-59 | One more grant to an instructor who listed the course keeps the course's record of grants. |
| StableMarriage.ProposeNext | jobmatch/stable_marriage.py:44-64 | One proposal keeps the loop's facts. If the instructor still has room afterwards, the proposed course is closed to it. |
| StableMarriage.QueueStateAdvance | jobmatch/stable_marriage.py:62-64 | Moving the cursor past a closed course keeps the loop's facts. |
| StableMarriage.QueueFinished | jobmatch/stable_marriage.py:34 | With the queue empty, every tracker is sound and can take nothing more. |
| StableMarriage.Visit | jobmatch/stable_marriage.py:36-64 | One turn pops the front of the queue. Either the instructor is appended at the back with its cursor advanced by exactly one and room left, or it is dropped with its cursor unchanged and can propose no more. The remaining proposals plus the queue length strictly fall, unless the KeyError is raised. |
| StableMarriage.RunQueue | jobmatch/stable_marriage.py:34-64 | The loop terminates. It raises iff it meets a preference naming no course, and never raises when every preference names a catalog course. Each course's list grows by exactly what its count loses. Each finished tracker is sound and saturated. |
| StableMarriage.StableMarriageSolver | jobmatch/stable_marriage.py:11-72 | Each instructor's new entries come from its own preferences, stay within `max_classes` and two courses, and leave it saturated. Each course's list grows, by listing instructors, exactly as its count falls. A KeyError is raised only for a preference naming no course. |
| Bipartite.SectionBlock | jobmatch/bipartite_graph_match.py:19 | A course with `k` sections left has the nodes `name_1 ... name_k`. |
| Bipartite.NodesOfLayout | jobmatch/bipartite_graph_match.py:19 | There is one node per remaining section. Each course's block sits at the number of sections before it, in catalog order. |
| Bipartite.SplitBase | jobmatch/bipartite_graph_match.py:33 | `split('_')[0]` is the longest prefix without an underscore. |
| Bipartite.SplitBaseOfNode | jobmatch/bipartite_graph_match.py:33 | An underscore-free course name is recovered from each of its nodes. |
| Bipartite.SplitBaseOfUnderscoredName | jobmatch/bipartite_graph_match.py:33 | A name with an underscore is not recovered: `PS_211_1` splits to `PS`. |
| Bipartite.PreferenceRank | jobmatch/bipartite_graph_match.py:24-37 | A preference weight lies in `(0, 1]`. |
| Bipartite.EdgeWeight | jobmatch/bipartite_graph_match.py:39-41 | An edge weight is positive. When `instructor_weighted` is set, `1 / instructor_rank` is added. |
| Bipartite.ListedWeight | jobmatch/bipartite_graph_match.py:34-35 | A course first listed at index `i` weighs `1/(i+1)`. |
| Bipartite.UnlistedWeight | jobmatch/bipartite_graph_match.py:24-37 | An unlisted course weighs `1/(#section nodes + 1)`. |
| Bipartite.EarlierWeighsMore | jobmatch/bipartite_graph_match.py:34-35 | An earlier preference weighs strictly more than a later one. |
| Bipartite.RankOf | jobmatch/bipartite_graph_match.py:25 | The dict comprehension keeps the 1-based position of the last instructor with the name, and 0 when none has it. |
| Bipartite.RankOfDistinct | jobmatch/bipartite_graph_match.py:25 | With distinct names, an instructor's rank is its 1-based position. |
| Bipartite.InstructorEdges | jobmatch/bipartite_graph_match.py:32-43 | An instructor has one edge per section node. |
| Bipartite.EdgeBlocks | jobmatch/bipartite_graph_match.py:27-43 | There is one block of edges per instructor. |
| Bipartite.EdgeBlockOf | jobmatch/bipartite_graph_match.py:31-43 | The block of an instructor with preferences holds its edges at its 1-based rank. |
| Bipartite.NetworkNodes | jobmatch/bipartite_graph_match.py:18-22 | The graph's instructor nodes are the names. Its section nodes are one per remaining section, laid out by course. |
| Bipartite.NetworkJoinsEverySection | jobmatch/bipartite_graph_match.py:27-43 | An instructor with preferences is joined to every section node, in node order. The weight comes from its preference for the node's course and its own position. |
| Bipartite.EdgeOwner | jobmatch/bipartite_graph_match.py:27-43 | Every edge joins an instructor with preferences to a section node. |
| Bipartite.NetworkSkipsEmptyPreferences | jobmatch/bipartite_graph_match.py:29-30 | An instructor without preferences gets no edge. |
| Bipartite.InstructorEdgesAt | jobmatch/bipartite_graph_match.py:32-43 | Edge `j` of an instructor joins it to node `j`, with the weight `EdgeWeight` gives. |
| Bipartite.EligibleInstructors | jobmatch/bipartite_graph_match.py:61-64 | At most the given instructors are eligible. |
| Bipartite.EligibleInstructorsSpec | jobmatch/bipartite_graph_match.py:61-64 | Exactly the instructors with `course_count < max_classes` and fewer than two courses are eligible. None is eligible iff no load is open. |
| Bipartite.Resolve | jobmatch/bipartite_graph_match.py:84-90 | Either orientation of a pair resolves to a tracker and the first course named by the other node's base. It fails, naming the KeyError or StopIteration, exactly when neither lookup succeeds. |
| Bipartite.Slots | jobmatch/bipartite_graph_match.py:97-100 | A commit grants a positive amount iff the tracker has room, a section is left and `can_assign` holds. The amount is never negative for a valid load. |
| Bipartite.CommitPair | jobmatch/bipartite_graph_match.py:84-106 | It fails iff the pair does not resolve. Otherwise it grants `PairSlots`, and the total of remaining sections falls by exactly that. The books and the trackers' invariants are kept. |
| Bipartite.GrantPair | jobmatch/bipartite_graph_match.py:97-106 | It grants `Slots` to the pair's instructor and course. The books are kept, and the total falls by the grant. Granting nothing changes nothing. |
| Bipartite.GrantStep | jobmatch/bipartite_graph_match.py:103-105 | Only tracker `i` and course `j` change, by exactly the granted copies and sections. |
| Bipartite.NoGrantNoChange | jobmatch/bipartite_graph_match.py:100 | A zero grant leaves loads and sections as they were. |
| Bipartite.CommitMatching | jobmatch/bipartite_graph_match.py:82-106 | The total never rises, and strictly falls when `assignments_made`. When nothing was made, nothing changed and every pair is idle. An error comes from an unresolvable pair. |
| Bipartite.NetworkNotEmpty | jobmatch/bipartite_graph_match.py:69-74 | Past the stop check, the graph has nodes on both sides. |
| Bipartite.RunRounds | jobmatch/bipartite_graph_match.py:55-116 | The loop terminates and keeps the books. On success it has stopped for one of the three reasons the code gives. |
| Bipartite.IterativeBipartiteMatchingSolver | jobmatch/bipartite_graph_match.py:50-123 | For any matcher, each course's list grows by instructor names exactly as its count falls. Each instructor gains only catalog courses, within `max_classes` and two courses. On success the final state is stopped, and on error nothing was merged. |
| Bipartite.RunFromScratch | jobmatch/bipartite_graph_match.py:51-116 | Fresh, empty trackers, then the round loop. The books are kept from the courses' starting state. |
| Bipartite.MergeRun | jobmatch/bipartite_graph_match.py:119-121 | Each instructor gains exactly its tracker's lists. The stopped state carries over to what the instructors gained. |
| LinearProgram.SectionNameShape | jobmatch/linear_program_optimization.py:36 | In `name_section_n` the separator's last underscore is followed only by the number. |
| LinearProgram.SectionNameInjective | jobmatch/linear_program_optimization.py:36-38 | Two section names are equal iff instructor name and number are. |
| LinearProgram.OwnSections | jobmatch/linear_program_optimization.py:35-37 | An instructor has sections `1 .. max_classes`, named and numbered in order. |
| LinearProgram.SplitIntoSections | jobmatch/linear_program_optimization.py:34-38 | The nested loop builds exactly `AllSections`. |
| LinearProgram.SectionsSound | jobmatch/linear_program_optimization.py:34-38 | Every section is a numbered section of its instructor. |
| LinearProgram.SectionsComplete | jobmatch/linear_program_optimization.py:34-38 | Every instructor has every section `1 .. max_classes`. |
| LinearProgram.SectionsOrdered | jobmatch/linear_program_optimization.py:34-38 | Sections come in instructor order, and by increasing number within an instructor. |
| LinearProgram.SectionNamesDistinct | jobmatch/linear_program_optimization.py:36-38 | With distinct instructor names no two sections share a name, so the section map keeps one entry per section. |
| LinearProgram.EligibleSections | jobmatch/linear_program_optimization.py:44-48 | At most the given sections are eligible. |
| LinearProgram.EligibleSectionsComplete | jobmatch/linear_program_optimization.py:44-48 | Every section whose instructor has room and fewer than two courses is eligible. |
| LinearProgram.EligibleSectionsSound | jobmatch/linear_program_optimization.py:44-48 | Every eligible section is one of the sections, and open. |
| LinearProgram.LedgerGrant | jobmatch/linear_program_optimization.py:117-119 | A grant of at most one section keeps the run's ledger. |
| LinearProgram.RunStateAtStart | jobmatch/linear_program_optimization.py:29-38 | Before the loop nothing is gained and every course is where it began. |
| LinearProgram.TakeSection | jobmatch/linear_program_optimization.py:114-119 | Exactly one section moves iff `can_teach` holds and a section is left. It is recorded on both records, and validity is kept. |
| LinearProgram.CommitStep | jobmatch/linear_program_optimization.py:113-120 | The same move on the solver's lists. Only instructor `i` and course `j` change. |
| LinearProgram.Commit | jobmatch/linear_program_optimization.py:113-120 | The run's ledger is kept, and the total of remaining sections falls by exactly what was granted. |
| LinearProgram.SumTake | jobmatch/linear_program_optimization.py:119 | Taking `g` from one course takes `g` from the total. |
| LinearProgram.NoGrant | jobmatch/linear_program_optimization.py:116 | A grant of nothing changes no list, set or count. |
| LinearProgramRounds.IdleUpToNext | jobmatch/linear_program_optimization.py:112-116 | One more eligible course not chosen, or not teachable, keeps the section idle. |
| LinearProgramRounds.IdleSectionsNext | jobmatch/linear_program_optimization.py:106-120 | One more idle section keeps the round idle so far. |
| LinearProgramRounds.TryChosen | jobmatch/linear_program_optimization.py:108-120 | One chosen course is looked up and committed. The ledger is kept, and the total falls by the grant. A zero grant changes nothing and, when every eligible course was open, shows the instructor cannot teach it. |
| LinearProgramRounds.CommitSection | jobmatch/linear_program_optimization.py:106-120 | All chosen courses of one section are committed. A commit strictly lowers the total, and otherwise nothing changed and the section was idle. |
| LinearProgramRounds.CommitRound | jobmatch/linear_program_optimization.py:104-120 | The round sets `assignments_made` iff the total fell. Otherwise nothing changed and the round was idle. |
| LinearProgramRounds.Rounds | jobmatch/linear_program_optimization.py:40-127 | The loop terminates for any program output and keeps the ledger. It stops only when no section or course is eligible or a round committed nothing. |
| LinearProgramRounds.FirstAvailable | jobmatch/linear_program_optimization.py:132-138 | `available_instructors[0]` is the first section whose instructor has room and passes `can_teach`. There is none iff no section's instructor does. |
| LinearProgramRounds.NoneAbleGrant | jobmatch/linear_program_optimization.py:132-141 | A grant only closes the post-fill filter: a course nobody could take stays so. |
| LinearProgramRounds.FilledGrant | jobmatch/linear_program_optimization.py:130-141 | A grant to an able instructor keeps the earlier courses filled. |
| LinearProgramRounds.PostFill | jobmatch/linear_program_optimization.py:130-141 | The ledger is kept. Afterwards every course is full or no section's instructor passes the filter. |
| LinearProgramRounds.NoneAbleAll | jobmatch/linear_program_optimization.py:132-137 | A course no section's instructor can take is one no instructor can take. |
| LinearProgramRounds.RunStateMeans | jobmatch/linear_program_optimization.py:40-141 | The ledger is restated per record. Each course's list grew by instructor names exactly as its count fell. Each instructor gained only catalog courses, within its caps. |
| LinearProgramRounds.FilledMeans | jobmatch/linear_program_optimization.py:130-137 | After the post-fill every course is full, or every instructor with room fails `can_teach` for it. |
| LinearProgramRounds.IterativeLinearProgrammingSolver | jobmatch/linear_program_optimization.py:11-148 | For any program output, each course's list grows exactly as its count falls. Every instructor ends within `max_classes` and two courses, gaining only catalog courses. Every course ends full or untakeable. |
| Genetic.Head | jobmatch/genetic_algorithm.py:159-160 | `split(sep)[0]` is the prefix before the first occurrence of `sep`, or the whole text when there is none. |
| Genetic.HeadUnique | jobmatch/genetic_algorithm.py:159-160 | The three facts of `Head`'s contract single out its result. |
| Genetic.UnderscoreFreeSeparatorFree | jobmatch/genetic_algorithm.py:159 | `_section_` cannot start inside an underscore-free name. |
| Genetic.HeadOfSectionName | jobmatch/genetic_algorithm.py:28 | `f"{name}_section_{n}".split('_section_')[0]` gives back an underscore-free name. |
| Genetic.Take | jobmatch/genetic_algorithm.py:218 | `s[:k]` is a prefix of length `min(k, len(s))`. |
| Genetic.Drop | jobmatch/genetic_algorithm.py:218 | `s[:k] + s[k:] == s`. |
| Genetic.CrossAt | jobmatch/genetic_algorithm.py:218-219 | The children hold exactly the parents' genes. For parents of equal length they keep that length, and at every position hold the two parents' genes. |
| Genetic.CrossAtUndo | jobmatch/genetic_algorithm.py:218-219 | Crossing the children at the same cut gives back the parents. |
| Genetic.Crossover | jobmatch/genetic_algorithm.py:206-220 | It raises iff the first parent is empty. Otherwise it is a cut at some `k` in `[0, len(p1) - 1]` with the properties of `CrossAt`. |
| Genetic.Mutated | jobmatch/genetic_algorithm.py:237 | Only gene `g` changes, and only its instructor section. |
| Genetic.Mutate | jobmatch/genetic_algorithm.py:223-238 | It raises iff the chromosome or the instructors are empty or the drawn instructor has no class, and then the array is unchanged. Otherwise the array becomes `Mutated` with a section `1 .. max_classes` of the drawn instructor. |
| GeneticFitness.Loads | jobmatch/genetic_algorithm.py:150-161 | Step 1 succeeds iff every gene names a known instructor, and raises a KeyError otherwise. There is one slot per record, and a name's genes go to the slot of its first record, where the dict key sits. |
| GeneticFitness.LoadsOnKeySlots | jobmatch/genetic_algorithm.py:150-161 | A record whose name an earlier record already bears gets no gene: the dict has one entry per name. |
| GeneticFitness.LoadsCount | jobmatch/genetic_algorithm.py:158-161 | Every gene is filed exactly once: the loads hold as many courses as the chromosome has genes. |
| GeneticFitness.LoadsLast | jobmatch/genetic_algorithm.py:158-161 | The last gene is filed after the others, under its instructor. |
| GeneticFitness.PreferenceRank | jobmatch/genetic_algorithm.py:182-183 | `prefs.index(course)` is the first position of a listed course. |
| GeneticFitness.PreferenceScore | jobmatch/genetic_algorithm.py:182-186 | A course at 0-based rank `r` adds `10 - r`, and an unlisted course costs `non_preferred_penalty`. |
| GeneticFitness.DegreeScore | jobmatch/genetic_algorithm.py:189-195 | For a 'mas' degree, a core course adds the penalty and any other course subtracts it. Other degrees score 0. |
| GeneticFitness.DirectorScore | jobmatch/genetic_algorithm.py:198-202 | Only the course's director is penalised, by `penalty * (cap - count)` while `count < min(cap, sections)`. Nobody else is, and the director no longer once the count reaches that minimum. |
| GeneticFitness.CourseScores | jobmatch/genetic_algorithm.py:177-202 | There is one score per assigned section, in order, each taken with the last course record of its name (`course_lookup`). A course missing from the catalog is a KeyError. |
| GeneticFitness.CapPenalty | jobmatch/genetic_algorithm.py:167-171 | The penalty is 25 per distinct course over `max_unique_classes` plus 25 per section over `max_sections`. It is zero iff neither cap is exceeded. |
| GeneticFitness.TotalOk | jobmatch/genetic_algorithm.py:164-202 | The sum is an error exactly when one of the scores raised. |
| GeneticFitness.InstructorScores | jobmatch/genetic_algorithm.py:164-202 | Each name is scored once, on its load, with the last record bearing it (`instructor_lookup`). A record that is not the first of its name adds nothing. |
| GeneticFitness.CollectLoads | jobmatch/genetic_algorithm.py:157-161 | The step-1 loop computes `Loads`. |
| GeneticFitness.ScoreSections | jobmatch/genetic_algorithm.py:177-202 | The loop adds up exactly the per-section scores, or stops at the first KeyError. |
| GeneticFitness.CapPenalties | jobmatch/genetic_algorithm.py:165-171 | The loop subtracts exactly `CapPenalty`. |
| GeneticFitness.ScoreInstructor | jobmatch/genetic_algorithm.py:165-202 | One instructor's score is the cap penalties, then its sections' scores. |
| GeneticFitness.ScoreInstructors | jobmatch/genetic_algorithm.py:164-202 | The loop over the dict's keys, in first-occurrence order, adds up exactly `InstructorScores`. |
| GeneticFitness.Fitness | jobmatch/genetic_algorithm.py:128-204 | `fitness_function` equals step 1 followed by step 2 as specified by `FitnessSpec`. |
| GeneticFitness.LoadsSameHeads | jobmatch/genetic_algorithm.py:158-161 | Step 1 reads only the names in the ids, not the section numbers. |
| GeneticFitness.FitnessSectionBlind | jobmatch/genetic_algorithm.py:128-204 | Chromosomes naming the same instructors and courses gene by gene have the same fitness. |
| GeneticFitness.MutationWithinInstructor | jobmatch/genetic_algorithm.py:234-237 | Moving a gene to another section of the instructor who already holds it does not change the fitness. |
| GeneticFitness.FitnessOfEmpty | jobmatch/genetic_algorithm.py:149-171 | With non-negative caps, the empty chromosome scores 0. |
| GeneticPopulation.SectionIds | jobmatch/genetic_algorithm.py:27-29 | The ids are every instructor's sections `1 .. max_classes`, instructor by instructor. |
| GeneticPopulation.Director | jobmatch/genetic_algorithm.py:30-38 | The director found is a known instructor. |
| GeneticPopulation.DirectorMeans | jobmatch/genetic_algorithm.py:30-38 | The director found is the last instructor with the course's director name, the one `instructor_lookup` keeps. None is found iff no instructor has the name. |
| GeneticPopulation.DirectorGenes | jobmatch/genetic_algorithm.py:39-40 | The director's genes number `min(sections_available, max_classes)`. |
| GeneticPopulation.DirectorGenesAt | jobmatch/genetic_algorithm.py:39-40 | Director gene `s` pairs the director's and the course's section `s + 1`. |
| GeneticPopulation.DirectorPartNumbered | jobmatch/genetic_algorithm.py:36-40 | A course's director genes hold its sections 1, 2, ... in order, and no more than it has. |
| GeneticPopulation.DirectorParts | jobmatch/genetic_algorithm.py:34-40 | There is one block of director genes per course. |
| GeneticPopulation.DirectorPartsFit | jobmatch/genetic_algorithm.py:34-40 | Every block fits its course: numbered from 1, and no longer than its sections. |
| GeneticPopulation.CoursePrefix | jobmatch/genetic_algorithm.py:43 | The prefix is `name + "_section"`. |
| GeneticPopulation.CountPrefixed | jobmatch/genetic_algorithm.py:43 | The count of genes whose course section starts with the prefix is at most the chromosome's length. |
| GeneticPopulation.Choice | jobmatch/genetic_algorithm.py:44 | `random.choice` picks one of the ids. |
| GeneticPopulation.RandomGenes | jobmatch/genetic_algorithm.py:43-45 | There are `count` random genes. |
| GeneticPopulation.RandomGenesAt | jobmatch/genetic_algorithm.py:43-45 | Random gene `s` is course section `s + 1`, with the id drawn for it. |
| GeneticPopulation.InitializePopulation | jobmatch/genetic_algorithm.py:13-49 | It returns `num_individuals` chromosomes, each the course-by-course individual `Initial`. It raises iff some individual raises. |
| GeneticPopulation.Breed | jobmatch/genetic_algorithm.py:33-47 | The course loop builds exactly `Initial` for all courses. |
| GeneticPopulation.InitialErrExtends | jobmatch/genetic_algorithm.py:44 | A raised error ends the individual: the whole individual is that error. |
| GeneticPopulation.BreedNext | jobmatch/genetic_algorithm.py:34-45 | One pass of the course loop extends the individual by one course. |
| GeneticPopulation.BreedCourse | jobmatch/genetic_algorithm.py:35-45 | The loops for one course compute `AddCourse`. |
| GeneticPopulation.AddRandomGenes | jobmatch/genetic_algorithm.py:43-45 | The loop appends exactly `RandomGenes`, or raises when there are no ids to draw from. |
| GeneticPopulation.AddDirectorGenes | jobmatch/genetic_algorithm.py:39-40 | The loop appends exactly the director's genes. |
| GeneticPopulation.IndividualNext | jobmatch/genetic_algorithm.py:34-45 | One more course is `AddCourse` applied to the individual so far. |
| GeneticPopulation.IndividualErrExtends | jobmatch/genetic_algorithm.py:44 | Once an individual raises, later courses pass the same error on. |
| GeneticPopulation.OwnPrefix | jobmatch/genetic_algorithm.py:43 | A course's own section ids start with its prefix. |
| GeneticPopulation.ForeignPrefix | jobmatch/genetic_algorithm.py:43 | Distinct underscore-free names never start with each other's prefix. |
| GeneticPopulation.UnderscoreFreeNoCrossPrefixes | jobmatch/genetic_algorithm.py:43 | Distinct underscore-free course names satisfy `NoCrossPrefixes`. |
| GeneticPopulation.AddCourseParts | jobmatch/genetic_algorithm.py:35-45 | A course appends its director genes, then one random gene per uncovered section, numbered from 1. |
| GeneticPopulation.NumberedUncounted | jobmatch/genetic_algorithm.py:43 | Genes of a course whose ids never start with the prefix add nothing to its count. |
| GeneticPopulation.NumberedCounted | jobmatch/genetic_algorithm.py:43 | Numbered genes of a course all count towards its own prefix. |
| GeneticPopulation.AddCourseUncounted | jobmatch/genetic_algorithm.py:43 | Adding a course whose ids never start with a prefix leaves that prefix's count alone. |
| GeneticPopulation.LaterCoursesUncounted | jobmatch/genetic_algorithm.py:43 | Under `NoCrossPrefixes`, earlier courses leave no gene counted for a later course. |
| GeneticPopulation.CourseBlock | jobmatch/genetic_algorithm.py:35-45 | Under `NoCrossPrefixes`, course `j` appends exactly `sections_available` genes: the director's genes, then the rest numbered from 1. |
| GeneticPopulation.IndividualLength | jobmatch/genetic_algorithm.py:32-47 | The first `k` courses give `Σ sections_available` genes. |
| GeneticPopulation.IndividualSize | jobmatch/genetic_algorithm.py:32-47 | Under `NoCrossPrefixes`, every individual has one gene per remaining course section. |
| GeneticPopulation.NoSectionIds | jobmatch/genetic_algorithm.py:27-29 | There are no ids iff every instructor has `max_classes == 0`. |
| GeneticPopulation.NoDirectorGenes | jobmatch/genetic_algorithm.py:36-40 | With no ids, no director has a gene to give. |
| GeneticPopulation.EmptyIndividual | jobmatch/genetic_algorithm.py:43-45 | With no ids and no director genes, the courses raise exactly when one of them has a section left. Otherwise the individual is empty. |
| GeneticPopulation.IndividualFails | jobmatch/genetic_algorithm.py:44 | `random.choice` raises iff there are no section ids and some course has a section left. |
| GeneticPopulation.NeverFails | jobmatch/genetic_algorithm.py:44 | With ids to draw from, no individual raises. |
| GeneticReplay.ArgMax | jobmatch/genetic_algorithm.py:309 | `np.argmax` returns the first index of a largest score, and raises iff there are no scores. |
| GeneticReplay.FinalScores | jobmatch/genetic_algorithm.py:307-308 | There is one final fitness per chromosome, or the KeyError of a chromosome that raises. |
| GeneticReplay.SelectBest | jobmatch/genetic_algorithm.py:307-309 | The result is a chromosome of the population with the largest fitness, the first such. It fails iff the population is empty or a fitness raises. |
| GeneticReplay.ReplayStep | jobmatch/genetic_algorithm.py:312-331 | One gene succeeds iff both names are known. The lookups keep the last record of each name. |
| GeneticReplay.Replayed | jobmatch/genetic_algorithm.py:315-331 | The replay on values keeps one list per instructor and per course. |
| GeneticReplay.ReplayedFails | jobmatch/genetic_algorithm.py:319-326 | The replay raises iff some gene names an unknown course or instructor. |
| GeneticReplay.ReplayedWithinMaxClasses | jobmatch/genetic_algorithm.py:329-330 | No instructor ends with more than `max_classes` sections, whatever the chromosome. |
| GeneticReplay.ReplayedBalances | jobmatch/genetic_algorithm.py:319-331 | Every kept gene lands on both sides. The courses' lists only grow, by as many names in all as the instructors' lists hold. |
| GeneticReplay.StepBalances | jobmatch/genetic_algorithm.py:329-331 | One replayed gene keeps the two sides balanced. |
| GeneticReplay.ReplayedAsScored | jobmatch/genetic_algorithm.py:315-331 | Take a chromosome naming known courses, whose load per name fits the `max_classes` of that name's last record. It is replayed whole, and each name's scored load lands on the record the lookups keep. |
| GeneticReplay.HeldLoadsDistinct | jobmatch/genetic_algorithm.py:315-331 | With distinct names, every instructor's replayed list is exactly its own scored load. |
| GeneticReplay.HeldLoadsStep | jobmatch/genetic_algorithm.py:319-331 | A gene filed under a name's first slot lands on the list of that name's last record. |
| GeneticReplay.ResetInstructors | jobmatch/genetic_algorithm.py:315-317 | Every instructor's lists are emptied, and the courses keep theirs. |
| GeneticReplay.TakeSection | jobmatch/genetic_algorithm.py:330 | Instructor `i` gains one copy of the course. |
| GeneticReplay.JoinRoster | jobmatch/genetic_algorithm.py:331 | Course `j` lists one more instructor, and its remaining count stays. |
| GeneticReplay.ApplyGene | jobmatch/genetic_algorithm.py:319-331 | The records change exactly as `ReplayStep` says, and the counts are untouched. |
| GeneticReplay.ApplyGenes | jobmatch/genetic_algorithm.py:319-331 | The genes are replayed in order, as `Replayed` says. On a KeyError the records hold what the genes before the raising one replayed to. No instructor exceeds `max_classes`. |
| GeneticReplay.ReplayedErr | jobmatch/genetic_algorithm.py:319-331 | Once a prefix of the genes raises, every longer sequence raises. |
| GeneticReplay.Replay | jobmatch/genetic_algorithm.py:315-331 | The instructors are emptied and the genes replayed as `Replayed` says. On a KeyError the records hold what the genes before the raising one replayed to. The remaining counts are untouched, and no instructor exceeds `max_classes`. |
| Orchestrator.StrategyName | jobmatch/JobMatch.py:79-84 | Every strategy has a non-empty name. |
| Orchestrator.StrategyNameInjective | jobmatch/JobMatch.py:79-84 | Distinct strategies have distinct names. |
| Orchestrator.SelectSolver | jobmatch/JobMatch.py:70-86 | A selected strategy bears the given name. Any other name raises `ValueError("Unknown method: " + name)`. |
| Orchestrator.SelectSolverByName | jobmatch/JobMatch.py:79-84 | Each strategy is selected by its own name and by no other. |
| Orchestrator.LastNamed | jobmatch/JobMatch.py:65-68 | A name present among the instructors has a last instructor bearing it. |
| Orchestrator.RankedByUnique | jobmatch/JobMatch.py:63-68 | `rank_order_preferences` is deterministic: any two tables it may leave are equal. |
| Orchestrator.CopyInstructors | jobmatch/JobMatch.py:98 | `deepcopy` gives fresh, distinct records with equal fields. |
| Orchestrator.CopyCourses | jobmatch/JobMatch.py:99 | `deepcopy` gives fresh, distinct records with equal fields. |
| Orchestrator.TableOf | jobmatch/JobMatch.py:66 | An instructor's entry is its ranking table over the catalog's names. |
| Orchestrator.JobMatch.constructor | jobmatch/JobMatch.py:60-61 | It stores the two lists, and nothing is ranked or assigned. |
| Orchestrator.JobMatch.RankOrderPreferences | jobmatch/JobMatch.py:63-68 | Each instructor name maps to the table of the last instructor with that name. |
| Orchestrator.JobMatch.StableMarriageSolver | jobmatch/JobMatch.py:88-101 | The solver runs on fresh copies, never raises when every preference names a course, and leaves the stored records unchanged. |
| Orchestrator.JobMatch.BipartiteMatchingSolver | jobmatch/JobMatch.py:103-122 | The solver runs on fresh copies, and the stored records are unchanged. |
| Orchestrator.JobMatch.IterativeLinearProgrammingSolver | jobmatch/JobMatch.py:124-142 | The solver runs on fresh copies, and the stored records are unchanged. |
| Orchestrator.JobMatch.Solve | jobmatch/JobMatch.py:144-167 | The tables are set first. An unknown name raises its ValueError after that. The stored instructor and course records are the same after solving. |
| ColumnNames.UnderscoredHasNoSpace | gui/load_data.py:24 | No whitespace is left after `re.sub(r'\s+', '_')`. |
| ColumnNames.UnderscoredNoSpace | gui/load_data.py:24 | Text without whitespace is unchanged. |
| ColumnNames.UnderscoredRun | gui/load_data.py:24 | A whitespace run between non-space text becomes exactly one underscore. |
| ColumnNames.KeepColumnChars | gui/load_data.py:25 | Only `[a-z0-9_]` is left. A name that is already a column name is unchanged. |
| ColumnNames.KeepColumnCharsAppend | gui/load_data.py:25 | The filter works piece by piece. |
| ColumnNames.NormalizeColumnName | gui/load_data.py:21-26 | The result contains only `[a-z0-9_]`. A name is unchanged iff it already has that form, so normalising twice is normalising once. |
| ColumnNames.ColumnNameFixed | gui/load_data.py:21-26 | No step of the rewrite changes a column name. |
| ColumnNames.NormalizeIgnoresPadding | gui/load_data.py:22 | Surrounding whitespace does not change the normalised name. |
| ColumnNames.NormalizedNames | gui/load_data.py:21-26 | The names are normalised one by one, and the count is kept. |
| ColumnNames.NormalizeColumnNames | gui/load_data.py:9-31 | The caller's frame gets the normalised names in place and is returned. The duplicate check never raises. |
| ColumnNames.NormalizedNamesCollide | gui/load_data.py:28-29 | Two distinct columns can come out under one name, and the count check lets them through. |
| PreferenceColumns.MatchEnd | gui/load_data.py:59 | `$` matches at the end or just before a final newline. |
| PreferenceColumns.TrailingDigits | gui/load_data.py:59 | The longest run of ASCII digits that ends the text. |
| PreferenceColumns.PreferenceSuffix | gui/load_data.py:59-61 | `_(\d+)$` yields a non-empty digit string. |
| PreferenceColumns.NewNameSuffix | gui/load_data.py:62 | A renamed column keeps its suffix. |
| PreferenceColumns.PreferenceColumns | gui/load_data.py:49 | The preference columns are exactly the columns with a preference suffix. |
| PreferenceColumns.Suffixes | gui/load_data.py:59-61 | There is one suffix per preference column. |
| PreferenceColumns.NewNames | gui/load_data.py:64 | The new names taken so far are exactly `base_<suffix>` for the earlier suffixes. |
| PreferenceColumns.NewNameInjective | gui/load_data.py:62-64 | Two new names agree iff their suffixes do. |
| PreferenceColumns.RepeatedLast | gui/load_data.py:64-65 | A new name is already taken iff an earlier suffix is the same. |
| PreferenceColumns.DuplicatesNone | gui/load_data.py:64-70 | No duplicate is reported iff the suffixes are pairwise distinct. |
| PreferenceColumns.DuplicateListed | gui/load_data.py:64-65 | A repeated suffix has its new name listed among the duplicates. |
| PreferenceColumns.Renamed | gui/load_data.py:73 | Each preference column gets `base_<suffix>`, and every other column is kept. |
| PreferenceColumns.IdentifiedColumnsMeans | gui/load_data.py:49-75 | It raises iff no column has a preference suffix or two share one. Otherwise the result is `Renamed`. |
| PreferenceColumns.DuplicateNamed | gui/load_data.py:69-70 | Two columns with one suffix put that `pref_N` in the error. |
| PreferenceColumns.RenamedBy | gui/load_data.py:73 | `df.rename` replaces the mapped names and keeps the others. |
| PreferenceColumns.RenamedByNormalized | gui/load_data.py:67-73 | Renaming by the map built in the loop is `Renamed`. |
| PreferenceColumns.IdentifyAndNormalizePreferences | gui/load_data.py:34-75 | The loop-based procedure returns exactly `IdentifiedColumns`. |
| PreferenceColumns.NormalizeSuffixes | gui/load_data.py:58-67 | The duplicates are exactly `Duplicates`. Every mapped column maps to its new name, and with no duplicates every preference column is mapped. |
| PreferenceColumns.Targets | gui/load_data.py:58-67 | The intended map sends each preference column to its new name. |
| PreferenceColumns.SkipTakenName | gui/load_data.py:64-65 | A column whose new name is taken is listed as a duplicate and leaves the map alone. |
| PreferenceColumns.TakeFreeName | gui/load_data.py:66-67 | A column whose new name is free enters the map. |
| ColumnValidation.Missing | gui/load_data.py:94 | The missing list is empty iff every required name is present, and it lists only absent required names. |
| ColumnValidation.SequentialMeans | gui/load_data.py:104-107 | `sorted(numbers) == [1..n]` iff each of 1 to n occurs once and nothing else: no gap and no duplicate. |
| ColumnValidation.PrefNumbers | gui/load_data.py:104 | Each `pref_` column yields its trailing number. There is a failure iff some column has no trailing digits. |
| ColumnValidation.ValidateColumns | gui/load_data.py:78-121 | Any data type other than instructor or course raises. |
| ColumnValidation.ValidateInstructorColumns | gui/load_data.py:90-108 | Instructor columns pass iff the required non-`pref_` columns are present, some `pref_` column exists and the `pref_` numbers run 1 to n. |
| ColumnValidation.ValidatedHasPreference | gui/load_data.py:98-101 | Instructor data that passes has a `pref_` column. |
| ColumnValidation.ValidateCourseColumns | gui/load_data.py:110-114 | Course columns pass iff every required column is present. |
| RowPreferences.PrefsUpToMembers | gui/load_data.py:188 | What is extracted is exactly the string cells among `pref_1 .. pref_n`. |
| RowPreferences.PrefsUpToFull | gui/load_data.py:188 | With string cells `pref_1 .. pref_n`, those values come first, in order. |
| RowPreferences.PrefsUpToStops | gui/load_data.py:188 | Past the last string `pref_` cell nothing more is added. |
| RowPreferences.ExtractedInOrder | gui/load_data.py:188 | A row with string cells `pref_1 .. pref_n` and no later string `pref_` cell yields exactly those `n` values in order. |
| Text.LowerChar | gui/load_data.py:23 | `lower()` on one character: upper-case letters become lower-case, and `[a-z0-9_]` is kept. |
| Text.Lower | gui/load_data.py:23 | `lower()` maps each character by `LowerChar`. |
| Text.Strip | gui/load_data.py:22 | `strip()` is the infix without whitespace at either end, and text without whitespace is unchanged. |
| Text.NatToStringInjective | jobmatch/linear_program_optimization.py:36 | `str(n)` is one-to-one, so section names built from it do not collide. |
| Text.DigitsValueOfNatToString | gui/load_data.py:104 | `int(str(n)) == n`. |

## Left out

- The random draws are parameters. They are `random.choice`, `random.randint` and the seeding in `initialize_population`, `crossover` and `mutate`. A draw is a natural number reduced modulo the range, so any distribution is allowed and none is modelled.
- The genetic algorithm's main loop (jobmatch/genetic_algorithm.py:264-305) is left out. It covers generations, sorting by fitness, parent selection, tqdm, the progress callback and the floating-point early stop. The model covers the operators it calls and the final selection and replay after it.
- The commented-out older fitness function (jobmatch/genetic_algorithm.py:52-125) is not modelled.
- The foreign solvers are oracles. networkx `max_weight_matching` is the `matcher` parameter and may return any pairs. The pulp program and its CBC solve are the `choose` parameter and may pick any pairs. No optimality is claimed.
- Bipartite.IterativeBipartiteMatchingSolver: requires distinct instructor names and distinct course records. The code keys its trackers by name, so a duplicate name would collapse into one tracker.
- LinearProgramRounds.IterativeLinearProgrammingSolver: requires distinct instructor names and distinct course records. Its section ids are built from instructor names.
- StableMarriage.StableMarriageSolver: requires distinct instructor names and distinct course records. Its trackers and cursors are keyed by name.
- Orchestrator.JobMatch.Solve: requires distinct instructor names, because the solvers it runs do. The same holds for `Orchestrator.JobMatch.StableMarriageSolver`, `BipartiteMatchingSolver` and `IterativeLinearProgrammingSolver`.
- GeneticReplay.Replay: requires that no instructor or course record is listed twice. The update in place is framed record by record. Names may repeat.
- GeneticPopulation.IndividualSize: assumes that no course's section ids start with another course's `_section` prefix. Without that, line 43's count also counts another course's genes.
- Orchestrator.JobMatch.BipartiteMatchingSolver: states isolation and fresh copies only. The solver's own guarantees are those of `Bipartite.IterativeBipartiteMatchingSolver`, which it calls on the copies.
- Orchestrator.JobMatch.IterativeLinearProgrammingSolver: states isolation and fresh copies only, in the same way.
- The wrappers call the solvers that exist. The mismatched import name at jobmatch/JobMatch.py:6 and the unexpected `method=` argument at jobmatch/JobMatch.py:142 are not modelled.
- `deepcopy` is modelled as fresh records with equal fields. Aliasing inside one instructor's lists across records is not modelled.
- The error messages are kept as text labels. Exception types are not distinguished beyond that.
- `print`, logging, `verbose` output and the print helpers of the records (jobmatch/dataclasses.py:42-58, 70-81) are left out. So is the printing part of `print_matching_results`.
- A `None` preference list is treated as an empty list. The solvers test both alike with `not preferences`. The exception is `fitness_function`: `course in instructor.preferences` (jobmatch/genetic_algorithm.py:182) raises a TypeError on `None`. `GeneticFitness.PreferenceScore` instead scores an unlisted course, so a `None` list is not modelled there.
- `AssignmentTracker` is not defined in the source shown. It is modelled from its tests as a shadow with its own lists and a `course_count`.
- `course_director` is `Option<string>`: `None` and the empty string are both "no director".
- Case-insensitive matching and `lower()` cover ASCII letters only. `\d` is ASCII digits, and `\s` and `strip()` use Python's whitespace set.
- PreferenceText.NormalizePreferences: the concrete example of tests/test_preprocessing.py:78-81 is not evaluated. Its general properties are proved.
- PreferenceText.ReplaceDoubleSlash: states only that the text does not grow. The function itself is the definition used by the pipeline.
- ColumnValidation.PrefNumbers: `re.search(r'\d+$', col)` is assumed to match as `$` does. A column without trailing digits is a failure, which the code would raise as an AttributeError.
- ColumnValidation.ValidateColumns: the integer-dtype check on `sections_available` (gui/load_data.py:116-118) is not modelled, because a dtype is a pandas notion.
- Reading spreadsheets, `iterrows`, pandas frames and CSV export are left out. Columns are `seq<string>` and a row is a map from column name to cell.
- `build_instructors`, `build_courses`, `load_courses`, `parse_preferences` (fuzzy matching and interactive prompts) and `gui/data_ingestion.py` are not part of this model.
- The director genes of each course are computed once per course rather than inside the chromosome loop. They do not depend on the chromosome, so the genes produced are the same.
