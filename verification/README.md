# Data-quality platform: verified models

A Dafny 4.11 model of the parts of a data-quality platform that decide something: how a flow of
nodes is validated, planned and run; how the workspace selection, the rule wizard, the navigation
menu and the role editor keep their state; how names become slugs, how rule conditions and check
configurations are validated, how values are made fit for JSON, how a request is classified, how a
sandbox context is cached, and how synthetic data is generated.

Code that changes state step by step is modelled by classes and by methods with loops, each proved
against a specification function or predicate; what the source promises is then proved about that
specification. Pure code is modelled by functions and lemmas. Random choices, database contents,
what a flow node does, when a run is cancelled, and the order in which events arrive are arbitrary.

## Modules

- `FlowPlanner`, `CycleSearch`, `FlowRun` (over `Digraph`): flow validation's depth-first search,
  the two Kahn planners, and the executor that runs the plan.
- `WorkspaceSelection`, `RuleWizard`: two state machines of the web client.
- `Slug`, `ConditionTree`, `CheckConfig`, `JsonSanitizer`, `RequestClassifier`: transformations,
  validators and recognisers of the backend.
- `SeedData`: the synthetic datasets. `Navigation`, `Permissions`, `SandboxGate`: filters, toggles
  and a cache, each against its plain specification.
- `Wrappers`, `Sequences`, `Sorting`, `Ascii`: shared vocabulary.

## What the model found

Each of these is proved in the project; the code is modelled as it is.

- Flow validation never checks that node ids are distinct and accepts an empty flow whatever its
  connections. A strictly valid flow has an execution plan exactly when its ids are distinct and it
  is not an empty flow with connections (`ValidatedFlowHasPlan`, `RepeatedIdPassesValidation`).
- A cancelled run ends as completed unless a node it ran failed, even if it ran nothing
  (`CancelledRunReportsCompleted`, `FinalStatusMeansNoFailure`), and `nodes_skipped` leaves out
  every node the executor itself skipped (`ReportedSkipsFallShort`).
- The three nesting levels that are documented, and checked, are those below a condition. A rule's
  own list of conditions has no check, and is four levels deep exactly when some member uses all
  three of its own (`AcceptedListHeight`, `FourLevelsMeansFullMember`).
- The moment at which the workspace list arrives matters exactly when the last id written is the
  empty string and the list offers another (`LandingOrderIrrelevant`, `EmptyDetailBreaksCoherence`).
- A history entry carries the draft as it is when the reply lands, not the text that was sent. The
  two agree exactly when that draft is the sent one without its surrounding blanks, so they differ
  after an edit (`HistoryFollowsTheDraft`) and, with no edit, for a draft with such blanks
  (`HistoryKeepsBlanks`); `HistoryTextIsSentText` gives the condition.
- The menu's paths hold a placeholder exactly when an id, expanded as JavaScript expands a
  replacement text, does (`MenuHoldsWhatIdsHold`). Ids come from the URL and are not checked: the
  workspace id `$&` holds no placeholder and leaves one in every workspace path
  (`DollarIdKeepsPlaceholder`). Ids without a dollar form go in as they are (`LiteralIdsFill`).
- Overwriting `check_dimension` makes a dumped configuration come back as another class
  (`DumpThenCoerce`, `OverwrittenDimensionChangesClass`).
- The sanitiser raises on a signalling NaN and never rewrites keys, so the result is JSON exactly
  when the tree holds handled kinds and keys only (`RaisesOnSignallingNaN`, `ResultIsJson`).

## Model

| member | source | states |
|---|---|---|
| FlowPlanner.BuildGraph | backend/app/services/flows/validator.py:473-479 | Fails with the missing-key error exactly when a connection leads to an unknown node; otherwise the adjacency lists hold each node's targets in connection order and each degree counts, with repetition, the connections into the node. |
| FlowPlanner.DegreeZero | backend/app/services/flows/validator.py:483 | The start list is the nodes of degree zero, each once, in the order in which their ids first appear. |
| FlowPlanner.Release | backend/app/services/flows/validator.py:492-495 | Finishing a node leaves every degree equal to the number of connections still pending, and frees exactly the nodes whose degree falls to zero, each once, though a degree may fall several times. |
| FlowPlanner.FinishLevel | backend/app/services/flows/validator.py:489-497 | After a level is finished the next level is exactly the unfinished nodes with nothing pending, and each of them has a dependency in the level just finished. |
| FlowPlanner.PlannableFinishes | backend/app/services/flows/validator.py:499-502 | With distinct ids, known endpoints and no cycle, a planner that has no node ready has finished every node. |
| FlowPlanner.SizeTestDecides | backend/app/services/flows/validator.py:499-502 | Comparing two lengths at the end decides, for any graph, whether every node was placed exactly once. |
| FlowPlanner.PlanRanksUpward | backend/app/services/flows/validator.py:481-497 | In any level plan each connection goes from a lower level to a strictly higher one, so nodes that share a level do not depend on each other. |
| FlowPlanner.PlannedIsPlannable | backend/app/services/flows/validator.py:499-502 | A flow that has a level plan has distinct ids, known endpoints and no cycle. |
| FlowPlanner.GetExecutionLevels | backend/app/services/flows/validator.py:459-504 | A plan is returned exactly when ids are distinct, endpoints known and connections acyclic; it partitions the nodes into non-empty levels with every dependency earlier and one dependency in the level just before; the missing-key error means an unknown target, and any other failure is the circular-dependency error. |
| FlowPlanner.LevelIsLongestWalk | backend/app/services/flows/validator.py:481-497 | A node's level is the number of steps of a longest dependency walk that leads to it: such a walk exists and none is longer. |
| FlowPlanner.LevelsAreDetermined | backend/app/services/flows/validator.py:485-497 | Whatever order the level sets are listed in, any two plans of a flow put each node in the same level. |
| FlowPlanner.OrderedIsPlannable | backend/app/services/flows/validator.py:453-457 | A flow that has an execution order has distinct ids, known endpoints and no cycle. |
| FlowPlanner.GetExecutionOrder | backend/app/services/flows/validator.py:418-457 | An order is returned exactly for the flows that have a level plan; it lists each node once, after everything it depends on, and serves nodes first in, first out; failures are told apart as for levels. |
| FlowPlanner.DequeueServesInTurn | backend/app/services/flows/validator.py:443-451 | Taking the head of the queue and adding the nodes it frees at the end keeps the line in turn: nodes freed by a later node stand further back. |
| FlowPlanner.OrderFollowsLevels | backend/app/services/flows/validator.py:418-504 | The two planners agree: for any level plan of the flow, the linear order lists nodes by non-decreasing level. |
| CycleSearch.Search.constructor | backend/app/services/flows/validator.py:347-349 | The search starts with every node unvisited and an empty path, which satisfies its invariant. |
| CycleSearch.Search.Visit | backend/app/services/flows/validator.py:351-371 | If it reports a cycle, the nodes it collected are one; otherwise the node and all it reaches are finished in an order that puts targets first, and the path is as before. |
| CycleSearch.Search.VisitAll | backend/app/services/flows/validator.py:365-367 | The loop over neighbours stops with a genuine cycle or finishes every neighbour, keeping the path and all nodes finished before. |
| CycleSearch.DetectCircularDependencies | backend/app/services/flows/validator.py:329-379 | Reports a circular dependency exactly when the connections contain a cycle, and then returns the nodes of a cycle in order. |
| CycleSearch.Usable | backend/app/services/flows/validator.py:127-128 | The connections kept for later checks have known endpoints, and all are kept exactly when all endpoints are known. |
| CycleSearch.UsableIsFilter | backend/app/services/flows/validator.py:127-128 | Exactly the connections with both ends among the nodes are kept, in order and with repetition. |
| CycleSearch.ValidateGraph | backend/app/services/flows/validator.py:62-166 | The graph checks pass exactly for empty flows and for flows whose usable connections are acyclic and, in strict mode, are all the connections. |
| CycleSearch.ValidatedFlowHasPlan | backend/app/services/flows/validator.py:62-166 | A strictly valid flow has an execution plan if and only if its ids are distinct and an empty flow has no connections. |
| CycleSearch.RepeatedIdPassesValidation | backend/app/services/flows/validator.py:62-166 | Two nodes with one id pass strict validation and have no plan. |
| FlowRun.MergedInputIsInput | backend/app/services/flows/executor.py:299-310 | A node's input holds a key if and only if some connection into the node brings it, that is, has a source whose output holds the key; the value is that of the last such connection. |
| FlowRun.InputIsUnique | backend/app/services/flows/executor.py:299-310 | The connections and the stored outputs determine a node's input. |
| FlowRun.DataFlowReachesNodes | backend/app/services/flows/executor.py:299-331 | In results that satisfy the data-flow equations every node ran after all its sources, on exactly what its connections bring, and its record is what the task returned, or failed and empty if it raised. |
| FlowRun.LevelKeepsDataFlow | backend/app/services/flows/executor.py:299-331 | Running one level on the stored outputs keeps the data-flow equations: every finished node ran on the merged outputs of all it depends on. |
| FlowRun.GatherLevel | backend/app/services/flows/executor.py:296-343 | The tasks of a level all see the outputs stored before the level, each the ordered merge over its own dependencies. |
| FlowRun.StoreLevel | backend/app/services/flows/executor.py:349-397 | A level's outcomes are stored node by node with a raised task as failed, and the failure flag is set exactly when some outcome of the level failed. |
| FlowRun.WriteRows | backend/app/services/flows/executor.py:399-413 | Adds one row per node with its status, numbered consecutively after the rows already there, which are kept. |
| FlowRun.RunNextLevel | backend/app/services/flows/executor.py:292-400 | One turn of the level loop extends results and rows to exactly the next level, keeps the data-flow equations and all earlier rows, and tells whether that level failed. |
| FlowRun.SkipFrom | backend/app/services/flows/executor.py:399-413 | After stopping, the remaining nodes all get a skipped row, so the rows list every node of the plan once with consecutive numbers. |
| FlowRun.RunLevels | backend/app/services/flows/executor.py:272-413 | The level loop, up to where it breaks: exactly the levels before the cut have run and have rows, and the cut is the end, the first cancellation, or just after the first failed level when errors are not tolerated. |
| FlowRun.ExecuteLevels | backend/app/services/flows/executor.py:233-415 | For any node behaviour and any cancellation: the run executes exactly the levels before its cut, the cut is the end, a cancellation, or the level after the first failed one when errors are not tolerated, and every node of the flow has one row that tells its result or that it was skipped. |
| FlowRun.ExecuteFlow | backend/app/services/flows/executor.py:53-204 | A flow is rejected exactly when validation fails, and otherwise finishes exactly when it has a plan; every executed node ran on exactly what the connections into it bring, the results cover exactly the levels up to a legitimate stopping point, rows cover every node once, and the summary and status are those of the results. |
| FlowRun.ResultIsDetermined | backend/app/services/flows/executor.py:299-331 | Two sets of results that satisfy the data-flow equations agree on any node they share. |
| FlowRun.RunsAgree | backend/app/services/flows/executor.py:292-415 | Runs of one flow agree on every node both executed, however levels were ordered, wherever either was cut short, and whether or not errors were tolerated. |
| FlowRun.StopsNoEarlier | backend/app/services/flows/executor.py:272-413 | Of two such runs neither stops at an earlier level than the other. |
| FlowRun.RunIsDetermined | backend/app/services/flows/executor.py:272-415 | Two runs of one flow with the same node behaviour, cancellation and tolerance stop at the same level with the same results and summary, however their plans list the nodes of a level. |
| FlowRun.SummaryCoversFlow | backend/app/services/flows/executor.py:589-602 | The number of executed nodes is the size of the flow less the levels cut off, and equals the size of the flow exactly when none was. |
| FlowRun.ReportedSkipsFallShort | backend/app/services/flows/executor.py:399-413 | The nodes with a skipped row outnumber the reported `nodes_skipped` by exactly the nodes the executor did not run. |
| FlowRun.CancelledRunReportsCompleted | backend/app/services/flows/executor.py:275-290 | A run cancelled before its first level executes nothing and its final status is completed. |
| FlowRun.FinalStatusMeansNoFailure | backend/app/services/flows/executor.py:176-191 | A run ends as failed exactly when a node that it executed failed. |
| FlowRun.RaisedTaskFailsRun | backend/app/services/flows/executor.py:352-368 | A node whose task raises on its input is stored as failed without output, and the run then ends as failed. |
| FlowRun.SummaryCounts | backend/app/services/flows/executor.py:599-602 | The summary counts the executed nodes and, among them, exactly the completed, the failed and the skipped ones. |
| WorkspaceSelection.Provider.constructor | frontend/src/contexts/WorkspaceContext.tsx:39-45 | The selection starts as the stored id, with no list and no detail. |
| WorkspaceSelection.Provider.SetCurrentWorkspaceDetail | frontend/src/contexts/WorkspaceContext.tsx:47-53 | Performs the detail event of the state machine: a detail also moves selection and stored id, clearing one moves neither. |
| WorkspaceSelection.Provider.ListArrived | frontend/src/contexts/WorkspaceContext.tsx:60-76 | Performs the load event, selecting the first active workspace only if no id is stored; once unmounted it changes nothing. |
| WorkspaceSelection.Provider.ListFailed | frontend/src/contexts/WorkspaceContext.tsx:77-81 | A failed load only ends the loading state, and not even that once unmounted. |
| WorkspaceSelection.Provider.Unmount | frontend/src/contexts/WorkspaceContext.tsx:83 | Unmounting changes no visible state. |
| WorkspaceSelection.Provider.SwitchWorkspace | frontend/src/contexts/WorkspaceContext.tsx:86-91 | Performs the switch event: selection and stored id move together and the detail is dropped. |
| WorkspaceSelection.UserRun | frontend/src/contexts/WorkspaceContext.tsx:47-91 | Over any user events, selection and stored id end as the last id written, or as they were, and the list is untouched. |
| WorkspaceSelection.ActiveIsFilter | frontend/src/contexts/WorkspaceContext.tsx:62 | The list keeps exactly the workspaces whose status is active, in order and with repetition. |
| WorkspaceSelection.LandingOutcome | frontend/src/contexts/WorkspaceContext.tsx:56-91 | The exact final state when the list lands after any number of user events: the active workspaces are listed, and the first of them is selected only if nothing, or the empty id, was stored and no later event chose. |
| WorkspaceSelection.LandingOrderIrrelevant | frontend/src/contexts/WorkspaceContext.tsx:47-91 | The final state is the same wherever the single list reply lands among the user events, if and only if it is not the case that the last id written is empty while the list starts with a non-empty one. |
| WorkspaceSelection.StepCoherence | frontend/src/contexts/WorkspaceContext.tsx:41-91 | One event keeps stored id, selection and detail in agreement if and only if it is not a list reply that overrides a detail with an empty id. |
| WorkspaceSelection.RunIsCoherentThroughout | frontend/src/contexts/WorkspaceContext.tsx:41-91 | From any coherent state, the initial one included, every state of a run is coherent if and only if no list reply on the way overrides a detail with an empty id. |
| WorkspaceSelection.EmptyDetailBreaksCoherence | frontend/src/contexts/WorkspaceContext.tsx:47-76 | A detail with an empty id followed by the list reply leaves a selection that is not the detail's. |
| WorkspaceSelection.ReachableIsCoherent | frontend/src/contexts/WorkspaceContext.tsx:41-91 | In every run whose details have non-empty ids, with any number of loads and any switches, the stored id equals the selection and a present detail has the selected id. |
| WorkspaceSelection.FindSpec | frontend/src/contexts/WorkspaceContext.tsx:95 | The list lookup finds a workspace exactly when one has the selected id, and then the first that does. |
| WorkspaceSelection.CurrentPrefersList | frontend/src/contexts/WorkspaceContext.tsx:95-110 | The current workspace is the first list entry with the selected id, and only without one the detail with that id. |
| WorkspaceSelection.CurrentFollowsDetail | frontend/src/contexts/WorkspaceContext.tsx:93-112 | In a coherent state a present detail means a current workspace with that very id, from the list or from the detail; the current workspace always has the selected id, and is absent exactly when neither source has it. |
| Slug.CollapseThenStrip | backend/app/schemas/domain.py:15-16 | Collapsing separators and stripping dashes gives the dash-join of the maximal runs of non-separators, for any text. |
| Slug.FirstStripIsRedundant | backend/app/schemas/domain.py:13 | Stripping white space first, before junk is deleted, does not change the words. |
| Slug.SlugIsJoinedWords | backend/app/schemas/domain.py:11-17 | A slug is the dash-join of the name's words, and is the same without the first strip. |
| Slug.SeparatorEndsWord | backend/app/schemas/domain.py:15 | A blank, underscore or dash between two texts separates their words. |
| Slug.JunkIsDeleted | backend/app/schemas/domain.py:14 | Any other ASCII character that is no letter or digit can be taken out of a name without changing words or slug. |
| Slug.LettersAreOneWord | backend/app/schemas/domain.py:13-16 | A name of letters and digits only is one word, in lower case. |
| Slug.WordsHoldLettersAndDigits | backend/app/schemas/domain.py:13-16 | Put end to end, the words are the letters, in lower case, and digits of the name in order. |
| Slug.WordsAreSlugWords | backend/app/schemas/domain.py:13-15 | Words are non-empty and hold only lower-case letters and digits. |
| Slug.SplitGivesWordsBack | backend/app/schemas/domain.py:15-16 | Splitting a slug at its dashes gives the words back, and only a name without words has the empty slug. |
| Slug.SameSlugMeansSameWords | backend/app/schemas/domain.py:11-17 | Two names share a slug if and only if they have the same words. |
| Slug.SlugIsIdempotent | backend/app/schemas/domain.py:11-17 | A slug is its own slug and has the words of the name. |
| Slug.WordsOfTwoNames | backend/app/schemas/domain.py:13-15 | The words of two names with a blank between are the words of the first, then of the second. |
| Slug.SlugOfTwoNames | backend/app/schemas/domain.py:11-17 | The slug of two names with a blank between is the dash-join of those of their slugs that are not empty. |
| Slug.SlugIsNoLonger | backend/app/schemas/team.py:11-17 | No slug is longer than its name. |
| Slug.SlugIsClean | backend/app/schemas/domain.py:14-16 | No leading, trailing or doubled dash, and no other character than lower-case letters, digits and dashes. |
| ConditionTree.DepthIsReached | backend/app/schemas/nl_rule_builder.py:87-91 | The computed depth is reached by an actual nesting path. |
| ConditionTree.DepthBoundsPaths | backend/app/schemas/nl_rule_builder.py:87-91 | No nesting path exceeds the computed depth. |
| ConditionTree.DepthIsHeight | backend/app/schemas/nl_rule_builder.py:87-91 | The depth, from any start depth, is the start plus the length of a longest nesting path. |
| ConditionTree.AcceptedExactlyWhenShallow | backend/app/schemas/nl_rule_builder.py:225-245 | Validation at every level accepts a condition tree if and only if all values are flat and the root's nested list has height at most three. |
| ConditionTree.AcceptedTrees | backend/app/schemas/nl_rule_builder.py:225-245 | Accepted are exactly the condition trees whose values are scalars or lists of scalars and whose nesting paths below the root have at most three steps. |
| ConditionTree.AcceptedListHeight | backend/app/schemas/nl_rule_builder.py:240-245 | No nesting path of an accepted list of conditions is longer than four. |
| ConditionTree.FourLevelsMeansFullMember | backend/app/schemas/nl_rule_builder.py:240-245 | An accepted list of conditions has height four if and only if the nested list of some member has height three. |
| ConditionTree.FourLevelsAccepted | backend/app/schemas/nl_rule_builder.py:220-245 | The bounds are reached: a condition that nests three levels is accepted, so a list of height four is, and a condition that nests four is refused. |
| CheckConfig.CheckConfigObject.constructor | backend/app/schemas/nl_compiler.py:62-67 | An object starts with exactly the given declared fields and extras. |
| CheckConfig.CheckConfigObject.GetItem | backend/app/schemas/nl_compiler.py:69-73 | Reads as the dumped dictionary does, the missing-key error included. |
| CheckConfig.CheckConfigObject.SetItem | backend/app/schemas/nl_compiler.py:75-82 | A write keeps fields and extras disjoint and changes the dumped dictionary at that key only. |
| CheckConfig.CheckConfigObject.Get | backend/app/schemas/nl_compiler.py:84-85 | Reads as the dumped dictionary does, with the default for a missing key. |
| CheckConfig.CheckConfigObject.Contains | backend/app/schemas/nl_compiler.py:87-88 | Membership is that of the dumped dictionary. |
| CheckConfig.WriteUpdatesDump | backend/app/schemas/nl_compiler.py:75-82 | Whether a key is declared or extra, writing it and dumping equals dumping and updating a plain map. |
| CheckConfig.WritesActLikePlainMap | backend/app/schemas/nl_compiler.py:69-88 | Over any run of writes the object is a plain map, keeps its class, and keeps fields and extras disjoint. |
| CheckConfig.DefaultsHaveTheirTypes | backend/app/schemas/nl_compiler.py:91-149 | Every declared default of the nine classes has its field's type. |
| CheckConfig.ClassOfDimension | backend/app/schemas/nl_compiler.py:153-162 | Each of the eight known dimensions has its own class, and no other value has one of these classes. |
| CheckConfig.CoercedContents | backend/app/schemas/nl_compiler.py:178-184 | Coercing a dictionary fails exactly on an unhashable dimension or a refused field, and otherwise gives the class of the dimension, generic if absent, with each given field validated, each other field at its default, and everything else as extras. |
| CheckConfig.CoercedIsWellTyped | backend/app/schemas/nl_compiler.py:178-184 | Whatever coercion builds has all declared fields of its class, each of its type, and extras disjoint from them. |
| CheckConfig.DumpThenCoerce | backend/app/schemas/nl_compiler.py:153-184 | Dumping and coercing again gives the same class and contents if and only if the values have their types and `check_dimension` still names the class. |
| CheckConfig.CoercedSurvivesRoundTrip | backend/app/schemas/nl_compiler.py:75-184 | A configuration coerced from a dictionary survives any run of well-typed writes that leave `check_dimension` alone: dump and coerce give it back. |
| CheckConfig.OverwrittenDimensionChangesClass | backend/app/schemas/nl_compiler.py:75-184 | A generic configuration whose `check_dimension` is overwritten with "completeness" does not come back as itself. |
| CheckConfig.StrictValidatorIsSound | backend/app/schemas/nl_compiler.py:91-149 | The assumption made of field validation can be met. |
| RuleWizard.Wizard.constructor | frontend/src/pages/NLRuleBuilder.tsx:62-70 | The wizard starts at step one with the stored history and no result. |
| RuleWizard.Wizard.OnParsed | frontend/src/pages/NLRuleBuilder.tsx:139-172 | Performs the reply event: all three kinds of reply go to step two, only a parsed rule enters the history and its stored copy, and a failed parse alone keeps the resolution. |
| RuleWizard.Wizard.OnResolved | frontend/src/pages/NLRuleBuilder.tsx:182-184 | Performs the resolution event: only the resolution changes. |
| RuleWizard.Wizard.HandleCancelResolution | frontend/src/pages/NLRuleBuilder.tsx:273-275 | Performs the cancel event: the resolution goes and nothing else changes. |
| RuleWizard.Wizard.HandleInterpret | frontend/src/pages/NLRuleBuilder.tsx:218-231 | Performs the interpret event: a non-blank draft ends the thread and sends a request without history; a blank one changes nothing. |
| RuleWizard.Wizard.HandleClarify | frontend/src/pages/NLRuleBuilder.tsx:233-261 | Performs the clarify event: the thread grows by the non-blank answers and the request carries the whole thread. |
| RuleWizard.Wizard.HandleClear | frontend/src/pages/NLRuleBuilder.tsx:281-288 | Performs the clear event: draft, result, resolution and thread go, the history stays. |
| RuleWizard.Wizard.HandleGoBackToStep1 | frontend/src/pages/NLRuleBuilder.tsx:290-295 | Performs the back event: result, resolution and thread go, the draft and the history stay. |
| RuleWizard.Wizard.HandleGoBackToStep2 | frontend/src/pages/NLRuleBuilder.tsx:297-299 | Going back to the review changes the step only. |
| RuleWizard.Wizard.HandleContinue | frontend/src/pages/NLRuleBuilder.tsx:350 | Continuing changes the step only. |
| RuleWizard.StepsAgreeInEveryRun | frontend/src/pages/NLRuleBuilder.tsx:62-354 | In every run, replies landing at any moment included, step one shows exactly while there is no result, and then the thread is empty. |
| RuleWizard.ControlsOfSteps | frontend/src/pages/NLRuleBuilder.tsx:327-369 | In a reachable state each control works on its own step and does nothing on another. |
| RuleWizard.LateReplyOpensFreshReview | frontend/src/pages/NLRuleBuilder.tsx:139-172 | The first reply that lands after Clear or Back, whatever other events come between, reopens the review on that reply with an empty thread. |
| RuleWizard.HistoryIsNewestFive | frontend/src/pages/NLRuleBuilder.tsx:161-170 | After any run with a success the history has the smaller of five and the number of earned and initial entries, is that many of the earned entries, newest first, followed by the initial history, and equals the stored copy; without a success both are unchanged. |
| RuleWizard.SuccessEarnsEntry | frontend/src/pages/NLRuleBuilder.tsx:162-167 | A success earns one entry, newest of all: the draft at that time with the rule's confidence and type. |
| RuleWizard.ReplySettlesResolution | frontend/src/pages/NLRuleBuilder.tsx:139-160 | Every reply shows at step two and leaves draft and thread alone; one that asks or parsed leaves no resolution, and any other leaves the resolution as it was. |
| RuleWizard.HistoryTextIsSentText | frontend/src/pages/NLRuleBuilder.tsx:161-170 | For a request of either kind, any events after it that send no other, and a successful reply: the newest entry has the sent text if and only if the draft those events leave is the sent draft without surrounding blanks. |
| RuleWizard.HistoryFollowsTheDraft | frontend/src/pages/NLRuleBuilder.tsx:161-163 | Witness of the failing case with an edit: "a" is sent and the entry says "b". |
| RuleWizard.HistoryKeepsBlanks | frontend/src/pages/NLRuleBuilder.tsx:161-163 | Witness of the failing case without an edit: "a" is sent and the entry says " a". |
| RuleWizard.ThreadOnlyGrows | frontend/src/pages/NLRuleBuilder.tsx:233-261 | Within one thread each clarification request carries an extension of the turns the request before it carried. |
| RuleWizard.ThreadHoldsItsAnswers | frontend/src/pages/NLRuleBuilder.tsx:239-249 | The turns of a thread are exactly the answers given in it that are not blank, in order. |
| RuleWizard.TurnRecordsQuestion | frontend/src/pages/NLRuleBuilder.tsx:243-245 | A turn records the first question asked about its field, or the stand-in text if none was. |
| RuleWizard.ClarifySendsAnswers | frontend/src/pages/NLRuleBuilder.tsx:233-260 | A clarification with a draft sends one request with the trimmed draft, exactly its answers, and the whole thread if there is one. |
| RuleWizard.TrimIs | frontend/src/pages/NLRuleBuilder.tsx:219 | Trimming takes the blanks around a text and nothing else. |
| RequestClassifier.OperationFacts | backend/app/middleware/correlation.py:68-81 | What the six patterns have in common, and the exact length each of them requires of a key. |
| RequestClassifier.AtMostOneOperation | backend/app/middleware/correlation.py:68-81 | No request key fits two of the six patterns, a key that ends with a newline included. |
| RequestClassifier.OperationIsTheMatchingOne | backend/app/middleware/correlation.py:90-96 | A request gets a pattern's name if and only if its key fits that pattern, whichever position the pattern has in the list. |
| RequestClassifier.OperationTable | backend/app/middleware/correlation.py:64-96 | For every method and path, which requests get each of the six names: exactly the given method on the path of a tenant with a version 4 UUID and the given suffix, up to letter case, or on the collection path. |
| RequestClassifier.MatchSplitsKey | backend/app/middleware/correlation.py:92-94 | For any method string and path, a key that fits splits into verb and path where the pattern does. |
| RequestClassifier.SearchFrom | backend/app/middleware/correlation.py:84-102 | The unanchored search returns the leftmost position at which prefix, identifier and segment end match, or nothing if there is none. |
| RequestClassifier.ExtractionAgreesWithOperation | backend/app/middleware/correlation.py:64-102 | For the four tenant-specific operations the independent search returns the lower-cased identifier segment; for create and list it returns nothing. |
| RequestClassifier.ExtractedIdIsUuid | backend/app/middleware/correlation.py:84-102 | On any path, an extracted identifier is a version 4 UUID in lower case. |
| RequestClassifier.ExtractionFindsLeftmost | backend/app/middleware/correlation.py:84-102 | On any path the extracted id is that of the leftmost tenant path standing in it whose id segment ends there. |
| RequestClassifier.ExtractionFindsNothing | backend/app/middleware/correlation.py:84-102 | From a path in which no tenant path stands nothing is extracted. |
| JsonSanitizer.EntriesSpec | backend/app/utils/json_utils.py:60-61 | A dictionary is rewritten entry by entry with keys and order kept, and fails exactly when some value does. |
| JsonSanitizer.ItemsSpec | backend/app/utils/json_utils.py:64-65 | A list or tuple is rewritten item by item with its length kept, and fails exactly when some item does. |
| JsonSanitizer.RaisesOnSignallingNaN | backend/app/utils/json_utils.py:40-45 | The rewrite raises if and only if the tree holds a signalling NaN decimal at any depth. |
| JsonSanitizer.ResultIsJson | backend/app/utils/json_utils.py:12-68 | The result is a JSON value with finite numbers only if and only if the tree has no leaf or key of an unhandled kind. |
| JsonSanitizer.SanitizeIsIdempotent | backend/app/utils/json_utils.py:12-68 | Sanitising a result again never raises and changes nothing. |
| JsonSanitizer.FollowCommutes | backend/app/utils/json_utils.py:60-65 | A path leads somewhere before exactly when it does after, and to the sanitised value of what it led to. |
| JsonSanitizer.JsonIsKept | backend/app/utils/json_utils.py:12-68 | A value that is JSON already is returned unchanged. |
| JsonSanitizer.LeavesBecome | backend/app/utils/json_utils.py:30-68 | Wherever a path leads, the result holds there: null exactly for null, bytes, NaN and infinities, the same finite float, the float of a finite decimal, the text of a date or identifier, and any other leaf unchanged. |
| JsonSanitizer.EntryAtFindsFirst | backend/app/utils/json_utils.py:60-61 | A key in a path leads to the first entry that bears it. |
| JsonSanitizer.ShapeIsKept | backend/app/utils/json_utils.py:60-65 | Dictionaries keep their keys in order; lists and tuples become lists of the same length. |
| SeedData.BuildCustomers | scripts/seed_test_data.py:72-90 | Consecutive ids; the email is missing exactly at multiples of eleven and the customer inactive exactly at multiples of seven. |
| SeedData.BuildProducts | scripts/seed_test_data.py:93-107 | Consecutive ids, with prices and stock within the drawn ranges. |
| SeedData.BuildOrders | scripts/seed_test_data.py:110-131 | Every order names a customer and a product of the datasets and totals that product's price times the quantity; it fails exactly when a row is asked for and there is nothing to choose from. |
| SeedData.BuildEmployees | scripts/seed_test_data.py:134-153 | A manager has a strictly smaller, existing id, and the first five employees have none. |
| SeedData.BuildTransactions | scripts/seed_test_data.py:156-177 | Every transaction settles an existing order at a factor between 0.95 and 1.05; it fails exactly when a row is asked for and there are no orders. |
| SeedData.BuildAll | scripts/seed_test_data.py:180-186 | For every random choice the five datasets have the default sizes and refer to each other consistently; no builder fails. |
| SeedData.TransactionReachesAll | scripts/seed_test_data.py:110-186 | Every transaction reaches an existing order, and through it an existing customer and product whose price the order's total uses. |
| SeedData.TransactionAmountBounds | scripts/seed_test_data.py:110-177 | In exact units an amount lies between 0.95 and 1.05 times unit price times quantity of the product and order it reaches. |
| SeedData.MarkedCustomers | scripts/seed_test_data.py:75-88 | For any number n of customers exactly n/11 have no email and n/7 are inactive, rounded down. |
| SeedData.ManagementIsAcyclic | scripts/seed_test_data.py:137-139 | No management chain repeats an employee, and none is longer than its first id. |
| SeedData.ChainReachesTop | scripts/seed_test_data.py:137-139 | From every employee a finite chain of managers ends at one without a manager. |
| SeedData.InferPgType | scripts/seed_test_data.py:282-299 | Despite the early return the answer depends only on which kinds occur: JSONB exactly when a dictionary does, and each other answer but TEXT exactly when the kinds present fit it. |
| Navigation.BuildSections | frontend/src/hooks/useNavigationMenu.ts:68-127 | The loop with its gates computes the sorted menu of the specification. |
| Navigation.MenuHoldsShownSections | frontend/src/hooks/useNavigationMenu.ts:108-127 | The menu is sorted by order, holds exactly the sections that are open and have a visible item, and no section is empty. |
| Navigation.MenuOffersItems | frontend/src/hooks/useNavigationMenu.ts:87-124 | Every visible item of an open section appears in the menu with its injected path. |
| Navigation.MenuItemsAreOffered | frontend/src/hooks/useNavigationMenu.ts:87-124 | Every item of the menu is a visible item of an open configured section with its path injected. |
| Navigation.PolicyIsEnforced | frontend/src/hooks/useNavigationMenu.ts:71-106 | The gates and the item filter are the written-out policy of roles, permissions, workspace and grants. |
| Navigation.MenuShowsOnlyAllowed | frontend/src/hooks/useNavigationMenu.ts:68-127 | Every item in the menu is one the viewer may use, in a section he may enter: gated by a permission he holds or a privileged role, by his listed role, and never the workspaces link for a platform administrator. |
| Navigation.MenuShowsAllAllowed | frontend/src/hooks/useNavigationMenu.ts:68-127 | Conversely, every configured item that the viewer may use in a section he may enter is in the menu. |
| Navigation.VisibleItemsAreFiltered | frontend/src/hooks/useNavigationMenu.ts:87-106 | A section shows exactly the items the viewer may use, in the configured order and with repetition. |
| Navigation.MorePermissionsShowMore | frontend/src/hooks/useNavigationMenu.ts:87-106 | A larger permission set never withdraws an item that is offered. |
| Navigation.MenuGrowsWithPermissions | frontend/src/hooks/useNavigationMenu.ts:68-127 | Every item the menu shows is still shown with more permissions, under the same section and with the same path. |
| Navigation.OnlyOperatorsMatch | frontend/src/hooks/useActiveSupportGrant.ts:27-35 | Only a platform operator has a matching grant. |
| Navigation.FindGrantSpec | frontend/src/hooks/useActiveSupportGrant.ts:27-35 | A grant is found exactly when some active grant covers the tenant and the workspace in view, and it is the first that does. |
| Navigation.OperatorNeedsGrant | frontend/src/hooks/useNavigationMenu.ts:77-80 | A workspace section is open to a platform operator if and only if a workspace is in view and some active grant covers it. |
| Navigation.OperatorMenuNeedsGrant | frontend/src/hooks/useNavigationMenu.ts:68-127 | A platform operator's menu holds a workspace section if and only if a workspace is in view, some active grant is for the tenant and for all workspaces or that one, and some workspace section has an item he may use. |
| Navigation.InjectFills | frontend/src/hooks/useNavigationMenu.ts:113-122 | For any ids, the two replacements fill each placeholder with its id as JavaScript expands it at that place, the workspace first, and drop the tenant segment when the tenant is unknown. |
| Navigation.DollarForms | frontend/src/hooks/useNavigationMenu.ts:115-117 | What each dollar form in a replacement text stands for. |
| Navigation.FilledHoldsWhatIdsHold | frontend/src/hooks/useNavigationMenu.ts:113-122 | For any ids, a filled path holds a placeholder if and only if an expanded id that was put into it does; none arises across a boundary. |
| Navigation.MenuHoldsWhatIdsHold | frontend/src/hooks/useNavigationMenu.ts:113-124 | For a well-shaped configuration and any ids, a path of the menu is an offered item's with the expanded ids filled in, and holds a placeholder if and only if one of those does. |
| Navigation.LiteralIdsFill | frontend/src/hooks/useNavigationMenu.ts:113-122 | Ids in which no dollar sign starts one of the four replacement forms are filled in as they are. |
| Navigation.MenuHasNoPlaceholder | frontend/src/hooks/useNavigationMenu.ts:113-124 | With ids that hold neither a placeholder nor a dollar form, no path of the menu holds a placeholder. |
| Navigation.DollarIdKeepsPlaceholder | frontend/src/hooks/useNavigationMenu.ts:115 | Witness of the failing case: the workspace id "$&" holds no placeholder, and every workspace path keeps one. |
| Navigation.ConfiguredMenuIsWellShaped | frontend/src/config/navigationConfig.ts:66-135 | The configured menu is well shaped: placeholders are whole segments, and workspace placeholders occur in workspace sections only. |
| Navigation.AdministrationPages | frontend/src/config/navigationConfig.ts:66-135 | Of the configured pages, the tenant's are for tenant and platform administrators exactly, and the platform's for platform staff exactly. |
| Permissions.ResourceIsPrefix | frontend/src/pages/RolesPermissions.tsx:62 | The resource of a permission is what stands before its first colon. |
| Permissions.GroupByResource | frontend/src/pages/RolesPermissions.tsx:59-66 | The dictionary has a group for exactly the resources that occur, and each group lists its permissions in sorted order. |
| Permissions.MembersAreFiltered | frontend/src/pages/RolesPermissions.tsx:61-64 | A group lists exactly the permissions of its resource, in the order of the sorted list and with repetition. |
| Sorting.SortIsStable | frontend/src/pages/RolesPermissions.tsx:61 | Sorting keeps permissions that compare as equal in their given order. |
| Permissions.GroupsPartition | frontend/src/pages/RolesPermissions.tsx:59-66 | The groups are sorted and partition the input as a multiset. |
| Permissions.TogglePerm | frontend/src/pages/RolesPermissions.tsx:576-582 | A single toggle is the group toggle of a one-element group. |
| Permissions.ToggleResource | frontend/src/pages/RolesPermissions.tsx:584-592 | A group toggle removes the group if all of it is selected, and otherwise leaves all of it selected; nothing else changes, repetitions in the group notwithstanding. |
| Permissions.ToggleLaws | frontend/src/pages/RolesPermissions.tsx:584-592 | A group toggle leaves its group all in or all out and touches nothing else; three toggles equal one; two give back the selection if and only if the group was all in or all out. |
| Permissions.GroupTogglesCommute | frontend/src/pages/RolesPermissions.tsx:584-592 | Toggles of the groups of two resources commute. |
| Permissions.PermissionsMustBeKnown | backend/app/schemas/workspace_roles.py:150-163 | Accepts exactly the lists of known permissions, names exactly the unknown ones otherwise, keeps first occurrences, and is the identity on lists without repetition. |
| Sequences.FirstOccurrencesSpec | backend/app/schemas/workspace_roles.py:156-163 | Deduplication keeps exactly the distinct values, each once, and changes a list if and only if it has a repetition. |
| Sequences.FirstOccurrencesKeepOrder | backend/app/schemas/workspace_roles.py:156-163 | Kept values stand in the order of their first occurrences. |
| SandboxGate.RequestState.constructor | backend/app/dependencies/sandbox_gate.py:200 | A request starts with nothing cached. |
| SandboxGate.RequestState.GetSandboxContext | backend/app/dependencies/sandbox_gate.py:183-206 | Performs one resolution against whatever the database holds at that moment. |
| SandboxGate.OneLookupPerRequest | backend/app/dependencies/sandbox_gate.py:183-206 | For other roles, over any sequence of resolutions with the database changing in between, at most one lookup happens and every result equals the first. |
| SandboxGate.FlagIsRefused | backend/app/dependencies/sandbox_gate.py:123-206 | For other roles every resolution of a request refuses a flag if and only if the first lookup found a sandbox whose access profile sets it. |
| SandboxGate.AdministratorIsNeverRestricted | backend/app/dependencies/sandbox_gate.py:111-198 | A platform administrator's resolutions make no lookup, cache nothing, and permit every flag. |
| SandboxGate.RemainingDaysCountDown | backend/app/dependencies/sandbox_gate.py:133-141 | The remaining days are the fewest whole days that reach the expiry, and a day later there is one fewer, never below zero. |

## Left out

- FlowRun.ExecuteFlow: the checks of node contents (configuration, compatibility, orphans) are one arbitrary verdict; an exception outside a task, which marks the whole run as failed, is not modelled.
- FlowRun.StoreLevel: a task that raises after its own record was written leaves that record behind as well; the model has one record per node.
- FlowRun.GatherLevel: tasks are functions of their merged input, so tasks that influence each other through the database are not modelled.
- CycleSearch.Search.Visit: Python's recursion limit on very long paths.
- FlowPlanner.GetExecutionLevels: connection ids and port handles, which the planners never read.
- Node handlers, database writes, check totals of the summary, timing and logging.
- WorkspaceSelection.CurrentFollowsDetail: the summary synthesised from a detail keeps id, tenant, name and status only; writers of the stored id outside the provider.
- RuleWizard.StepsAgreeInEveryRun: the dataset, domain, severity and tag fields, draft autosave, URL parameters, proposals, and a workspace id that changes without a remount; handlers see the latest state, so stale closures are not modelled, and the review step never hands back a missing result.
- Slug.SlugIsJoinedWords: characters outside ASCII, which belong to no class here, and Unicode case mapping.
- ConditionTree.AcceptedExactlyWhenShallow: the entity of a condition and its logic operator; scalars are not told apart.
- Constraint tagging (`_infer_constraint_type`, `_normalize_constraints`), rule-type normalisation and the confidence bounds: case tables without a property that spans them.
- CheckConfig.CoercedIsWellTyped: Pydantic's conversions are any function that keeps well-typed values and lets only well-typed ones through; keys are strings, and nested values shared between a dump and its source are not modelled.
- JsonSanitizer.ResultIsJson: the rounding of a decimal to a float is an arbitrary function; cyclic structures and duplicate keys after JSON encoding.
- RequestClassifier.OperationIsTheMatchingOne: letters outside ASCII that case folding could equate; dispatching, headers, metrics and log lines.
- SeedData.TransactionAmountBounds: money and factors are exact decimals, so the final conversion to a float and its rounding are left out; names, SKUs, salaries and dates as text.
- SeedData.BuildEmployees: the probability of having a manager; only that there may be one.
- The seeding script's file writers, database loaders, column redaction and object storage.
- Navigation.InjectFills: section labels and icons, which no path depends on.
- Navigation.BuildSections: memoisation of the hook, how role, permissions and ids are resolved, and grants still loading, which count as none.
- Permissions.GroupByResource: the locale's collation is any total preorder; resource names that an object inherits from its prototype.
- SandboxGate.GetSandboxContext: the query itself, an aware or naive expiry, and flags other than booleans.
- SandboxGate.RemainingDaysCountDown: time is exact microseconds, without the float division.
- The rule compiler, proposals, incidents, webhooks, sandbox lifecycles, authentication, scheduling, dashboards and migrations.
