# Compiler-Compiler-Construction, modelled in Dafny

This project models the core of a teaching compiler-compiler. The core has
two generators and a table-driven parser. Each source file has one Dafny
module, and each module is proved against specification functions of its
own.

**Lexical generator (`lexical/`).**
- States and NFAs are built by Thompson's construction
  (`construct_char`, `construct_concat`, `construct_union`,
  `construct_star`, `construct_plus`, `construct_simple`,
  `construct_range`, `construct_identifier`, `construct_number`).
- A recursive-descent regular-expression parser calls these constructors.
- The subset construction turns the NFA into a DFA: epsilon closure, move,
  and a worklist of DFA states.
- Partition-refinement minimization reduces the DFA.
- The nested transition table of the DFA feeds a maximal-munch scanner.

**Syntax generator (`syntax/`).**
- Productions and the grammar: classification of symbols and augmentation
  with `S'`.
- LR(1) items.
- FIRST and FOLLOW sets as fixed points.
- The canonical LR(1) collection, with closure and goto.
- The LALR(1) merge of states that share a core.
- The ACTION and GOTO tables.
- The parser generator that chains these steps.

**Driver (`driver/`).**
- The shift/reduce LR parser, with its state and symbol stacks, history and
  semantic callback.
- The parse-tree node and the builder that shifts and reductions drive.
- The base semantic analyzer: symbol table, temporaries, emitted code.
- The grammar symbol record.

**Utilities (`utils/`).**
- Grammar configurations: parsing an already decoded JSON object, the list
  of terminals, and validation.
- The edge labels of the automaton drawings (`_format_edge_label`).

## How the source is modelled

**Objects and state.**
- Objects whose fields the source updates become classes: `NFA`, `DFA`,
  the state factory behind `_new_state`, `RegexParser`, `Scanner`,
  `Grammar`, `FirstFollowCalculator`, `LR1Builder`, `TableBuilder`,
  `ParserGenerator`, `LRParser`, `ParseTreeBuilder` and `SemanticAnalyzer`.
- Their methods state the whole new state in their `ensures`.
- NFA states are ids issued by a counter. The mutable `is_accepting` and
  `tag` flags of each state live in a map from id to record, owned by the
  factory.

**Loops and specifications.**
- Loops are `while` loops with invariants.
- Each algorithm is proved against a specification function or predicate:
  - `IsClosureOf`: the least epsilon-closed superset.
  - `IsSubsetDfa`: the DFA reachable from the start closure. Every state
    after state 0 is entered from an earlier one, and `SubsetDfaUnique`
    shows this fixes the states up to their numbering.
  - `IsMinimized` together with `SameLanguage`: minimization keeps the
    language, and `Coarsest` with `NoEquivalentStates`: no two states of
    the result could be merged.
  - `Spans` together with `IsLongest`: the scanner's tokens, each the
    longest match.
  - `FirstRule` and `FollowRules`: the sets are closed under the grammar;
    `LeastFirstSets` and `LeastFollowSets`: they are the least such sets.
  - `Built`: the automaton Thompson's construction gives a regular
    expression's syntax tree, which the regular-expression parser builds.
  - `IsClosure` and `IsCollection`: the LR(1) closure and the canonical
    collection. Every state after state 0 is the goto of an earlier one, and
    `CollectionUnique` shows this fixes the states up to their numbering.
  - `MergedGroup`: one merged LALR state per core.
  - `ActionsAfter` and `GotosAfter`: the tables after visiting the items.
  - `Run`: the parse loop.

**Python behaviour.**
- Python's set and dict iteration order is left open wherever the result
  could depend on it.
- Exceptions become `Result` errors or an `Outcome` of the parse.

## Model

| member | source | states |
|---|---|---|
| LexState.NewState | lexical/state.py:9-22 | a new state is not accepting, has no tag and no priority |
| LexState.EqualsIgnoresAttributes | lexical/state.py:27-28 | two states are equal exactly when their ids are; a state never equals a non-state |
| LexState.MutatedStateStaysFindable | lexical/state.py:24-28 | changing a state's accepting flag or tag keeps it equal to, and hashing like, the state before |
| StateFactory.StateFactory.constructor | lexical/generator.py:18-23 | the counter starts at 0 with no records |
| StateFactory.StateFactory.NewState | lexical/generator.py:25-36 | the new state's id is the old counter, not issued before; the counter grows by one; the record is added with defaults |
| StateFactory.StateFactory.SetAccepting | lexical/thompson.py:34 | only the accepting flag of that one state changes |
| StateFactory.StateFactory.SetTag | lexical/thompson.py:187-189 | only the tag of that one state changes |
| StateFactory.DemoteSpec | lexical/thompson.py:60-62 | demoted states are no longer accepting; every other record, and every id and tag, is kept |
| StateFactory.RetagSpec | lexical/thompson.py:239-240 | retagged states carry the new tag; every other record and flag is kept |
| Nfa.Nfa.constructor | lexical/nfa.py:11-29 | an NFA with no states, symbols, transitions or accepting states, and no start |
| Nfa.Nfa.FromParts | lexical/nfa.py:31-37 | an NFA holding exactly the given fields; a missing key reads as no targets |
| Nfa.AddEdgeTargets | lexical/nfa.py:39-57 | after an edge is added, its target joins that key's targets and every other key reads as before |
| Nfa.Nfa.AddTransition | lexical/nfa.py:39-57 | the edge is added, both end points join the states, a non-epsilon symbol joins the alphabet, and start and accepting states stay |
| Nfa.AddEdgeKeepsWellFormed | lexical/nfa.py:39-57 | adding a transition keeps every edge inside the states and every symbol inside the alphabet |
| Nfa.LinkAllTargets | lexical/thompson.py:60-62 | linking gives each source an epsilon edge to every target; other keys read as before |
| Nfa.LinkAllKeys | lexical/thompson.py:60-62 | after linking, the keys are the old keys plus an epsilon key for every source |
| Dfa.Dfa.constructor | lexical/dfa.py:9-25 | a DFA with start 0 and every collection empty |
| Dfa.Dfa.FromParts | lexical/dfa.py:9-25 | a DFA holding exactly the given fields |
| Dfa.Dfa.GetTransitionTable | lexical/dfa.py:27-38 | the nested table equals the table specification of the DFA's transitions |
| Dfa.BuildTable | lexical/dfa.py:34-37 | the loop, in any order of the transitions, builds the table specification |
| Dfa.TableHasEveryMove | lexical/dfa.py:27-38 | every transition appears in the table under its source and symbol, with its target |
| Dfa.TableKeys | lexical/dfa.py:27-38 | the table has a row for a state exactly when that state has an outgoing transition |
| Dfa.FlattenTable | lexical/dfa.py:27-38 | flattening the table gives back the transitions: nothing lost, nothing added |
| Thompson.ConstructChar | lexical/thompson.py:22-40 | two fresh states s and s+1; the only edge is from s on c to s+1; s+1 is the only accepting state and is marked accepting |
| Thompson.ConstructConcat | lexical/thompson.py:42-64 | no fresh states; the accepting states of the first fragment are demoted and get epsilon edges to the second start; start of the first, accepting states of the second; merged states and alphabet |
| Thompson.ConstructUnion | lexical/thompson.py:66-99 | fresh start s with epsilon edges to both starts; fresh accepting s+1 reached by epsilon from every old accepting state, which is demoted |
| Thompson.ConstructStar | lexical/thompson.py:101-134 | fresh start and accept; entry, loop-back, exit and bypass epsilon edges; old accepting states demoted |
| Thompson.ConstructPlus | lexical/thompson.py:136-162 | like the star without the bypass edge, so at least one repetition |
| Thompson.StarIsPlusWithBypass | lexical/thompson.py:132 | the star's transitions are the plus's transitions plus exactly the one bypass edge |
| Thompson.ConstructSimple | lexical/thompson.py:164-191 | the counter grows by the word's length plus one; a chain of edges spelling the word; the last state alone accepts and carries the tag |
| Thompson.ChainTargets | lexical/thompson.py:181-184 | in the chain, state s+i reads the i-th character into s+i+1 and nothing else |
| Thompson.ChainKeys | lexical/thompson.py:181-184 | the chain has no keys except one per character position |
| Thompson.LettersSpec | lexical/thompson.py:181-184 | the alphabet of the chain is exactly the set of characters of the word |
| Thompson.ConstructRange | lexical/thompson.py:193-215 | two fresh states; an edge for every code point from a to b; no states at all when the range is empty |
| Thompson.CharsBetweenSpec | lexical/thompson.py:211-213 | a character is in the range exactly when its code point lies between the bounds |
| Thompson.RangeEdgesSpec | lexical/thompson.py:211-213 | the range's keys are exactly the start paired with each character in the range, each leading to the accept |
| Thompson.ConstructNumber | lexical/thompson.py:244-258 | exactly four fresh states s to s+3 make up the automaton; start s, only accepting state s+3, tagged; alphabet the ten digits; the digit fragment's edges, its star's loop, bypass and exit edges, and the epsilon edge from the digit's accept into the star |
| Thompson.NumberAccepts | lexical/thompson.py:249-256 | the final accepting state carries the tag, and the digit fragment's accept was demoted |
| Thompson.ConstructIdentifier | lexical/thompson.py:217-242 | exactly twelve fresh states s to s+11 make up the automaton; start s+4 (the letter union's start), only accepting state s+11, tagged; alphabet letters and digits; the letter union's edges, the starred letter-or-digit union, and the epsilon edge from the letter's accept into the star |
| Thompson.IdentifierAlphabet | lexical/thompson.py:222-230 | the alphabets of the letter and letter-or-digit parts together are exactly the letters and digits |
| Thompson.LinkAllUnion | lexical/thompson.py:92-97 | linking two source sets one after the other equals linking their union |
| Thompson.LinkAllUpdate | lexical/thompson.py:81-89 | updating a key whose state is not a source commutes with linking |
| Thompson.FreshKeyAbsent | lexical/thompson.py:13-20 | a state not yet issued has no outgoing transitions in an issued fragment |
| RegexParser.Expr | lexical/regex_parser.py:44-52 | the tree of terms separated by the bar, combined from the left; the cursor only moves forward and stays in the pattern |
| RegexParser.Term | lexical/regex_parser.py:54-69 | factors concatenated from the left, or the empty word when there is none; the cursor stays in the pattern |
| RegexParser.Factor | lexical/regex_parser.py:71-80 | an atom with at most one postfix star or plus; the cursor moves at least one character |
| RegexParser.Atom | lexical/regex_parser.py:82-102 | parenthesised expression, bracket class, escaped or plain character; a missing parenthesis and a dangling escape are errors |
| RegexParser.Bracket | lexical/regex_parser.py:104-133 | bracket items united from the left up to the closing bracket; a class without its closing bracket and a dash at the end of the pattern are errors |
| RegexParser.ExprStops | lexical/regex_parser.py:44-52 | a parsed expression stops only at the end of the pattern or at a closing parenthesis |
| RegexParser.TermStops | lexical/regex_parser.py:54-69 | a parsed term stops only at the end, at a bar or at a closing parenthesis |
| RegexParser.MissingParenAtEnd | lexical/regex_parser.py:86-90 | an unmatched opening parenthesis is reported at the end of the pattern |
| RegexParser.BracketCloses | lexical/regex_parser.py:104-133 | a parsed class ends with the closing bracket just before the cursor |
| RegexParser.BracketEmpty | lexical/regex_parser.py:104-133 | a class yields no fragment exactly when it is the empty class |
| RegexParser.BracketSome | lexical/regex_parser.py:127-130 | once one item is read, the class yields a fragment |
| RegexParser.FragmentGrows | lexical/regex_parser.py:16-19 | a fragment stays valid as the state counter grows |
| RegexParser.IssuedBelow | lexical/regex_parser.py:16-19 | a fragment's states were issued by the factory exactly when they are below its counter |
| RegexParser.RegexParser.constructor | lexical/regex_parser.py:16-19 | the parser holds its factory, with an empty pattern and the cursor at 0 |
| RegexParser.RegexParser.Parse | lexical/regex_parser.py:21-31 | the result is the error the grammar functions give for the whole pattern, or exactly the Thompson automaton of its tree numbered from the counter's old value; with a non-empty tag every accepting state carries it |
| RegexParser.RegexParser.Match | lexical/regex_parser.py:38-42 | a match happens exactly when the next character is the expected one, and then the cursor moves by one |
| RegexParser.RegexParser.ParseExpression | lexical/regex_parser.py:44-52 | the method stops where the expression function stops, with the same error or exactly the Thompson automaton of the expression's tree (states, alphabet, edges, start, accepts and the counter after it) |
| RegexParser.RegexParser.ParseTerm | lexical/regex_parser.py:54-69 | the method follows the term function: same cursor and error, or exactly the automaton of the term's tree, the empty word when there is no factor |
| RegexParser.RegexParser.ParseFactor | lexical/regex_parser.py:71-80 | the method follows the factor function: exactly the automaton of the factor's tree; the empty class gives no fragment and uses no state |
| RegexParser.RegexParser.ParseAtom | lexical/regex_parser.py:82-102 | the method follows the atom function: same cursor and error, or exactly the automaton of the atom's tree |
| RegexParser.RegexParser.ParseBracket | lexical/regex_parser.py:104-133 | the method follows the bracket function from after the opening bracket: exactly the automaton of the union of its items, or none for the empty class |
| RegexParser.RegexParser.ParseItem | lexical/regex_parser.py:117-123 | one item: exactly the automaton of a single character, or of the range between two characters; a dash at the end is an error |
| RegexParser.UnionOf | lexical/regex_parser.py:48-51 | the union of two fragments uses two new states and has exactly the states, alphabet, edges, start and accepts of `UnionShape` of the two |
| RegexParser.ConcatOf | lexical/regex_parser.py:62-67 | the concatenation of two fragments uses no new state and is exactly `ConcatShape` of the two |
| RegexParser.StarOf | lexical/regex_parser.py:75-77 | the star of the automaton built for a tree is exactly the automaton built for the star tree |
| RegexParser.PlusOf | lexical/regex_parser.py:78-80 | the plus of the automaton built for a tree is exactly the automaton built for the plus tree |
| RegexParser.CharOf | lexical/regex_parser.py:96-102 | a single character gives exactly the two-state automaton built for that character |
| RegexParser.RangeOf | lexical/regex_parser.py:117-123 | a range item gives exactly the automaton built for that range |
| RegexParser.EmptyWord | lexical/regex_parser.py:69 | a term with no factor gives exactly the automaton built for the empty word: one state, accepting, no edge |
| RegexParser.BuiltAlphabet | lexical/regex_parser.py:44-133 | the automaton built for a tree has the tree's characters as its alphabet and uses at least one new state |
| RegexParser.UnionFields | lexical/thompson.py:66-99 | the fields the union constructor gives are exactly `UnionShape` of its operands |
| RegexParser.ConcatFields | lexical/thompson.py:42-64 | the fields the concatenation constructor gives are exactly `ConcatShape` of its operands |
| RegexParser.AltExact | lexical/regex_parser.py:48-51 | the union of the automata built one after the other for two trees is the automaton built for their alternative |
| RegexParser.CatExact | lexical/regex_parser.py:62-67 | the concatenation of the automata built one after the other for two trees is the automaton built for their sequence |
| SubsetConstruction.EpsilonClosure | lexical/subset_construction.py:16-39 | the result is the least epsilon-closed superset of the input: every state reachable by epsilon edges, nothing else |
| SubsetConstruction.FollowEpsilon | lexical/subset_construction.py:30-37 | one popped state: its epsilon targets not yet in the closure join it and the stack |
| SubsetConstruction.ClosureIsLeast | lexical/subset_construction.py:16-39 | the closure holds exactly the states at the end of an epsilon path from the input |
| SubsetConstruction.ClosureUnique | lexical/subset_construction.py:16-39 | there is only one epsilon closure of a set |
| SubsetConstruction.ClosureEmpty | lexical/subset_construction.py:16-39 | the closure is empty exactly when the input set is |
| SubsetConstruction.Move | lexical/subset_construction.py:42-56 | the targets on the symbol of every state of the set, with no closure taken |
| SubsetConstruction.MoveAdd | lexical/subset_construction.py:42-56 | one more source state adds exactly its own targets on the symbol |
| SubsetConstruction.MoveWithin | lexical/subset_construction.py:42-56 | a move never leaves the states that are edge targets |
| SubsetConstruction.Discover | lexical/subset_construction.py:108-116 | an unseen closure gets the next id, is queued, and is accepting when one of its states is; a seen one keeps its id |
| SubsetConstruction.StepSymbol | lexical/subset_construction.py:94-120 | for one symbol, a transition to the state of the closure of the move, or none when the move is empty |
| SubsetConstruction.ExpandState | lexical/subset_construction.py:94-120 | every symbol of the alphabet is handled for the current DFA state |
| SubsetConstruction.Explore | lexical/subset_construction.py:58-122 | the DFA states are distinct closures, state 0 is the start closure, every later state is entered by a transition from an earlier one, accepting means holding an accepting NFA state, and a transition exists exactly when the move is not empty, leading to the state of the move's closure |
| SubsetConstruction.ReachedAdd | lexical/subset_construction.py:106-119 | recording the transition that led to a newly numbered state keeps every state entered from an earlier one |
| SubsetConstruction.SubsetEntered | lexical/subset_construction.py:106-119 | every DFA state after state 0 is the closure of the non-empty move of an earlier state on a symbol of the alphabet |
| SubsetConstruction.SubsetEdge | lexical/subset_construction.py:100-119 | a non-empty move has a transition to the state of its closure |
| SubsetConstruction.SubsetStateShared | lexical/subset_construction.py:58-122 | every closure of one subset DFA of the NFA is a closure of any other |
| SubsetConstruction.SubsetDfaUnique | lexical/subset_construction.py:58-122 | two subset DFAs of the same NFA hold the same closures and have as many states |
| SubsetConstruction.Construct | lexical/subset_construction.py:58-122 | a new DFA with the NFA's alphabet, start 0, and the states, accepting states and transitions of the subset construction, each state discovered from the start closure in order |
| FiniteSets.SubsetFamilyBound | lexical/subset_construction.py:94-120 | a family of distinct subsets of a finite set has at most two to the size members, which bounds the worklist |
| FiniteSets.DistinctSubsetsBound | lexical/subset_construction.py:94-120 | a list of pairwise distinct subsets of a finite set has at most two to the size entries |
| FiniteSets.Choose | lexical/subset_construction.py:28-33 | some element of a non-empty set, in an order left open |
| FiniteSets.ToSeq | lexical/subset_construction.py:28 | each element of the set exactly once, in an order left open |
| Sorting.Sort | lexical/minimization.py:64 | an ascending rearrangement with the same multiset of elements |
| Sorting.AscendingUnique | lexical/minimization.py:64 | two ascending sequences with the same elements are equal, so the sorted list is unique |
| Minimization.InitialPartition | lexical/minimization.py:29-38 | the accepting group then the other group, each only when it is not empty; they partition the states and accepting states |
| Minimization.GroupIndex | lexical/minimization.py:40-45 | the index of the first group holding the state, or -1 exactly when no group holds it |
| Minimization.GetGroupId | lexical/minimization.py:40-45 | the scan over the groups gives the first group holding the state |
| Minimization.FlatIndex | lexical/minimization.py:40-45 | a state belongs to some group exactly when a group id is found |
| Minimization.GroupOfMember | lexical/minimization.py:40-45 | with disjoint groups, a member of group i gets id i |
| Minimization.Signature | lexical/minimization.py:62-70 | the signature is the group id of the target on every symbol in sorted order, or -1 where there is none |
| Minimization.SplitGroup | lexical/minimization.py:58-77 | the classes are non-empty, disjoint and cover the group; states share a class exactly when their signatures agree |
| Minimization.RefinePass | lexical/minimization.py:50-79 | the groups still partition the states and do not mix accepting and non-accepting; changed means more groups; unchanged means every group is stable |
| Minimization.Refine | lexical/minimization.py:48-79 | the result is a partition that keeps acceptance apart, in which every group is stable under every symbol, and it is the coarsest such: any grouping respected by acceptance and the moves puts together only states it puts together |
| Minimization.InitialByAcceptance | lexical/minimization.py:29-38 | the first groups put two states together exactly when both or neither accept |
| Minimization.AcceptanceIsCoarsest | lexical/minimization.py:29-38 | groups split by acceptance alone are coarser than any grouping that respects acceptance and the moves |
| Minimization.PassKeepsCoarsest | lexical/minimization.py:50-79 | a refinement pass splits no two states that every grouping respecting acceptance and the moves keeps together |
| Minimization.PartitionSize | lexical/minimization.py:48-79 | non-empty disjoint groups are no more numerous than their states, so refinement ends |
| Minimization.NumberGroups | lexical/minimization.py:86-89 | group i becomes state i |
| Minimization.StartAndAccepts | lexical/minimization.py:92-97 | the start is the group of the old start, or 0 when none holds it; a group accepts exactly when it meets the accepting states |
| Minimization.RowMoves | lexical/minimization.py:100-111 | a group's row: a transition on each symbol whose target from the representative lies in a group |
| Minimization.BuildMoves | lexical/minimization.py:100-111 | every group's transitions are those of one representative state |
| Minimization.SortedAlphabet | lexical/minimization.py:64 | an ascending list of exactly the alphabet's symbols |
| Minimization.Minimize | lexical/minimization.py:14-113 | the result is the quotient automaton of the coarsest stable partition that respects acceptance, with the alphabet kept |
| Minimization.MinimizedSize | lexical/minimization.py:14-113 | the result has no more states than the original's states and accepting states together |
| Minimization.AnyRepresentative | lexical/minimization.py:100-111 | whichever member was taken as representative, the group's transition is the same |
| Minimization.AcceptingGroup | lexical/minimization.py:92-97 | a group is accepting exactly when each of its members is |
| Minimization.SameLanguageFrom | lexical/minimization.py:14-113 | from the group of a state, the result accepts exactly the words the original accepts from that state |
| Minimization.SameLanguage | lexical/minimization.py:14-113 | the minimized DFA accepts exactly the words over the alphabet the original accepts |
| Minimization.MergedCongruence | lexical/minimization.py:14-113 | merging two result states that agree on acceptance and on every move gives a grouping of the original respected by acceptance and the moves |
| Minimization.NoEquivalentStates | lexical/minimization.py:14-113 | two states of the result that agree on acceptance and on every move are the same state, so no further merge is possible |
| LexicalGenerator.LexicalGenerator.constructor | lexical/generator.py:18-23 | the state counter starts at 0 with no states issued |
| LexicalGenerator.LexicalGenerator.NewState | lexical/generator.py:25-36 | a state numbered by the counter with the given flags; the counter grows by one |
| LexicalGenerator.LexicalGenerator.Generate | lexical/generator.py:38-75 | the NFA of the literal pattern, its subset DFA, the minimized DFA built from the coarsest stable partition, and the minimized DFA's table and accepting states |
| LexicalGenerator.SubsetDfaFits | lexical/generator.py:60-65 | the subset DFA is closed, has no state -1, and holds its start |
| LexicalGenerator.GeneratedSameLanguage | lexical/generator.py:60-71 | reading a word through the generated table accepts exactly the words the subset DFA accepts; no more states than the subset DFA |
| Scanner.Scanner.constructor | lexical/scanner.py:14-23 | the scanner holds the given table and accepting map |
| Scanner.Scanner.Scan | lexical/scanner.py:25-78 | the tokens are the tags and texts of the spans, each the longest match at its position, white space and unmatched characters skipped |
| Scanner.TableEntry | lexical/scanner.py:53-67 | the nested table has an entry exactly where the flat transitions do |
| Scanner.TableRunIsRun | lexical/scanner.py:53-67 | reading through the nested table is reading through the DFA's transitions |
| Scanner.MunchIsLongest | lexical/scanner.py:53-67 | the match attempt finds the longest non-empty accepted prefix with its tag, or none exists |
| Scanner.SpansWellFormed | lexical/scanner.py:25-78 | tokens are non-empty, in source order, do not overlap, never start with white space, and each is the longest match at its start |
| Scanner.SpansInSource | lexical/scanner.py:70-76 | every token lies within the source |
| Scanner.SpansSkipOnlyUnmatched | lexical/scanner.py:41-67 | a position no token covers holds white space or starts no match |
| Grammar.Split | syntax/grammar.py:24-25 | the pieces between single spaces, empty pieces kept |
| Grammar.ReprShape | syntax/grammar.py:24-25 | the printed production is the left side, the arrow, then the right side joined by spaces |
| Grammar.SplitJoin | syntax/grammar.py:24-25 | splitting the joined right side at spaces gives it back, when no symbol holds a space |
| Grammar.ReprRightSide | syntax/grammar.py:24-25 | the printed right side determines the right side except that an empty right side and epsilon print alike |
| Grammar.Grammar.constructor | syntax/grammar.py:28-42 | an empty grammar with start symbol S' |
| Grammar.Grammar.AddProduction | syntax/grammar.py:44-62 | the production is appended with id the old count; the left side and capitalised symbols become non-terminals, the other symbols terminals; well-formedness kept |
| Grammar.Classified | syntax/grammar.py:58-62 | every right-side symbol is either a non-terminal, a terminal or epsilon, by its first letter |
| Grammar.Grammar.GetProductionsByLeft | syntax/grammar.py:64-72 | exactly the productions with that left side |
| Grammar.ByLeft | syntax/grammar.py:64-72 | exactly the productions with that left side, in list order |
| Grammar.ByLeftAppend | syntax/grammar.py:64-72 | filtering by left side commutes with appending |
| Grammar.Renumbered | syntax/grammar.py:80-86 | each production's id becomes its index |
| Grammar.Grammar.Augment | syntax/grammar.py:74-86 | unless the list is empty or already starts with S', S' arrow the old start goes in front, ids are renumbered, and S' becomes the start symbol |
| Grammar.AugmentShape | syntax/grammar.py:74-86 | after augmenting, S' arrow the first left side comes first, then the old productions in order |
| Grammar.AugmentIdempotent | syntax/grammar.py:74-86 | augmenting twice is augmenting once |
| LrItem.NextSymbol | syntax/lr_item.py:32-40 | the symbol right after the dot, present exactly when the dot is before the end |
| LrItem.Advance | syntax/lr_item.py:42-48 | the dot moves one further; production and lookahead stay |
| LrItem.Core | syntax/lr_item.py:50-57 | the production id and the dot, without the lookahead |
| LrItem.AdvanceWalks | syntax/lr_item.py:32-48 | after n advances the next symbol is the one n places further on, or none past the end |
| LrItem.CoreIgnoresLookahead | syntax/lr_item.py:50-57 | two items share a core exactly when production id and dot agree; advancing keeps shared cores shared |
| LrItem.EpsilonRightSide | syntax/lr_item.py:32-40 | for the right side epsilon, epsilon itself is the symbol after the dot at position 0 |
| FirstFollow.FirstFollowCalculator.constructor | syntax/first_follow.py:12-21 | the calculator holds the grammar, with empty FIRST and FOLLOW maps |
| FirstFollow.FirstFollowCalculator.ComputeFirstSets | syntax/first_follow.py:23-87 | every production satisfies the FIRST rule; each terminal's set is itself; every non-terminal has a set; and the sets are the least ones: they lie below every map closed under the rules that lies above the initial sets |
| FirstFollow.FirstFollowCalculator.ComputeFollowSets | syntax/first_follow.py:89-149 | the end marker follows the start symbol, every production satisfies the FOLLOW rules, and the sets are the least ones closed under those rules above the initial sets |
| FirstFollow.FirstSets | syntax/first_follow.py:40-85 | initialisation then the fixed point reach a map closed under every production, and it is the least such map above the initial one |
| FirstFollow.FirstFixpoint | syntax/first_follow.py:48-85 | sweeps run until one adds nothing; the result is closed under every production, only reads symbols of the grammar, and stays below every closed map above the start |
| FirstFollow.FirstSweep | syntax/first_follow.py:49-85 | one sweep grows the map inside a fixed universe, reports whether anything was added, gives a map closed under every production when nothing was, and adds nothing a closed map above its start lacks |
| FirstFollow.FirstProduction | syntax/first_follow.py:52-85 | one production: its left side gains exactly FIRST of its right side (epsilon for an empty or epsilon right side), and changed reports exactly whether it grew |
| FirstFollow.AddRightFirst | syntax/first_follow.py:61-85 | the scan over a non-empty right side adds exactly FIRST of the right side to the left side's set, no other set changes, and changed reports exactly whether it grew |
| FirstFollow.FollowSets | syntax/first_follow.py:105-147 | initialisation, the end marker for the start symbol, then the fixed point reach sets closed under every production; they are the least such sets above the initial ones |
| FirstFollow.FollowFixpoint | syntax/first_follow.py:112-147 | sweeps run until one adds nothing; the keys are kept, the result satisfies the FOLLOW rules and lies below every closed map above the start |
| FirstFollow.FollowSweep | syntax/first_follow.py:113-147 | one sweep keeps the keys, grows the sets inside the universe, reports growth, and adds nothing a closed map above its start lacks |
| FirstFollow.FollowProduction | syntax/first_follow.py:116-147 | one production: each non-terminal on the right gains what may follow it; no growth means the production's rules hold; nothing is added that a map satisfying those rules above the start lacks |
| FirstFollow.FollowAt | syntax/first_follow.py:120-147 | the non-terminal at position i gains exactly FIRST of the rest minus epsilon, plus FOLLOW of the left side when the rest is nullable or empty, and no other entry changes |
| FirstFollow.UnionInto | syntax/first_follow.py:131-134 | exactly the one set grows by the added symbols, and changed reports exactly whether it grew |
| FirstFollow.FirstSeqNullable | syntax/first_follow.py:151-174 | epsilon is in FIRST of a sequence exactly when every symbol has epsilon; the empty sequence gives epsilon |
| FirstFollow.FirstSeqMembers | syntax/first_follow.py:151-174 | a non-epsilon symbol is in FIRST of a sequence exactly when it is in FIRST of a symbol all of whose predecessors are nullable |
| FirstFollow.FirstSeqStops | syntax/first_follow.py:160-172 | the scan stops at the first symbol without epsilon; the rest is never read |
| FirstFollow.FirstSeqSplit | syntax/first_follow.py:151-174 | over a nullable prefix, FIRST of a sequence is the prefix's symbols without epsilon plus FIRST of the rest |
| FirstFollow.FirstSeqStop | syntax/first_follow.py:160-172 | with the first non-nullable symbol at k, FIRST of a sequence is the symbols of its first k+1 members without epsilon |
| FirstFollow.FirstSeqAll | syntax/first_follow.py:160-174 | when every symbol is nullable, FIRST of a sequence is their symbols without epsilon, plus epsilon |
| FirstFollow.FirstSeqMono | syntax/first_follow.py:151-174 | FIRST of a sequence grows when the FIRST sets of its symbols grow |
| FirstFollow.ProductionBelow | syntax/first_follow.py:52-85 | one production's step adds nothing to the left side that a map satisfying its FIRST rule and lying above the start lacks |
| FirstFollow.LeastFirst | syntax/first_follow.py:48-85 | a result that stays below every closed map above the start holds, for each symbol, no more than that map's FIRST set |
| FirstFollow.FollowAtBelow | syntax/first_follow.py:120-147 | one occurrence's step adds nothing that a map satisfying its FOLLOW rule and lying above the current sets lacks |
| Lr1.LR1Builder.constructor | syntax/lr1_builder.py:14-25 | the builder holds the grammar and FIRST sets, with no states and an empty goto table |
| Lr1.LR1Builder.Closure | syntax/lr1_builder.py:27-65 | the least superset closed under adding the dot-in-front items of every non-terminal after a dot, with lookaheads from FIRST |
| Lr1.ClosureOf | syntax/lr1_builder.py:27-65 | the worklist loop gives the closure, and every added item has its dot in front |
| Lr1.ClosureStep | syntax/lr1_builder.py:44-63 | one popped item: the items its closure step produces join the result and the worklist |
| Lr1.ExpandItem | syntax/lr1_builder.py:49-63 | for a non-terminal after the dot, every production of it with every lookahead from FIRST of the rest and the lookahead, minus epsilon |
| Lr1.ClosureUnique | syntax/lr1_builder.py:27-65 | there is one closure of a set of items |
| Lr1.ClosureEmpty | syntax/lr1_builder.py:27-65 | the closure is empty exactly when the set is |
| Lr1.LR1Builder.Goto | syntax/lr1_builder.py:67-88 | empty when no item has the symbol after the dot, otherwise the closure of the advanced items |
| Lr1.GotoOf | syntax/lr1_builder.py:67-88 | the advanced items with the symbol after the dot, closed, or the empty set |
| Lr1.KernelEmpty | syntax/lr1_builder.py:67-88 | the kernel is empty exactly when no item has the symbol after the dot |
| Lr1.LR1Builder.Build | syntax/lr1_builder.py:90-137 | the states become the canonical LR(1) collection: the closure of the start item and the states discovered from it by non-empty gotos, with a goto entry for every non-empty goto |
| Lr1.Explore | syntax/lr1_builder.py:105-133 | the states are distinct, non-empty closures, state 0 the start closure; every non-empty goto leads to the state of its closure, and every later state is entered by such a goto from an earlier one |
| Lr1.ReachedAdd | syntax/lr1_builder.py:123-133 | recording the goto that led to a newly numbered state keeps every state entered from an earlier one |
| Lr1.CollectionEntered | syntax/lr1_builder.py:120-133 | every state after state 0 is the closure of the non-empty goto of an earlier state on a grammar symbol |
| Lr1.CollectionEdge | syntax/lr1_builder.py:120-133 | a non-empty goto has an entry leading to the state that is that goto |
| Lr1.CollectionStateShared | syntax/lr1_builder.py:90-137 | every item set of one LR(1) collection of the grammar is an item set of any other |
| Lr1.CollectionUnique | syntax/lr1_builder.py:90-137 | two LR(1) collections of the same grammar hold the same item sets and have as many states |
| Lr1.Discover | syntax/lr1_builder.py:123-132 | an item set not seen before gets the next id and is queued; a seen one keeps its id |
| Lr1.StepSymbol | syntax/lr1_builder.py:120-133 | for one symbol, a goto entry to the closure's state, or none when the goto is empty |
| Lr1.ExpandState | syntax/lr1_builder.py:120-133 | every terminal and non-terminal is handled for the current state |
| Lr1.GotoTableExact | syntax/lr1_builder.py:90-137 | from an empty table, a goto entry exists exactly for the pairs whose goto is not empty |
| Lalr.GroupByCore | syntax/lalr_builder.py:33-38 | the distinct cores in order of first appearance, each with the ids of its states in order |
| Lalr.CollectLookaheads | syntax/lalr_builder.py:47-51 | for each core of the group, the lookaheads of its items in every state of the group |
| Lalr.FindProduction | syntax/lalr_builder.py:57-64 | the production of the first item with that core, searching the group's states in order |
| Lalr.Rebuild | syntax/lalr_builder.py:54-67 | for each core, an item on its production at its dot for every collected lookahead |
| Lalr.MergeGroup | syntax/lalr_builder.py:44-67 | the merged state holds an item for every core and lookahead of the group, with the production found for that core |
| Lalr.MergedIsUnion | syntax/lalr_builder.py:44-67 | when productions are told apart by id, the merged state is exactly the union of its group's states |
| Lalr.MergedCore | syntax/lalr_builder.py:44-67 | the merged state has its group's core |
| Lalr.GroupIds | syntax/lalr_builder.py:70-74 | every LR(1) id maps to the one group of its core |
| Lalr.MergeGoto | syntax/lalr_builder.py:77-81 | every LR(1) edge has a merged entry, and each merged entry is the image of some LR(1) edge |
| Lalr.MergeGotoExact | syntax/lalr_builder.py:77-81 | when the merged edges do not clash, each merged entry is exactly the image of every LR(1) edge behind it |
| Lalr.Merge | syntax/lalr_builder.py:13-85 | one merged state per distinct core in order of first appearance; every LR(1) state maps to the group of its core; the goto table is merged |
| Lalr.FewerStates | syntax/lalr_builder.py:13-85 | there are never more merged states than LR(1) states |
| Lalr.MergedCores | syntax/lalr_builder.py:13-85 | no two merged states share a core |
| Lalr.IndexOf | syntax/lalr_builder.py:70-74 | the position of a core in the list, or -1 when it is absent |
| Table.Candidate | syntax/table_builder.py:43-85 | shift only for a terminal after the dot with a goto entry; reduce on the lookahead when the dot is at the end; accept on the end marker for the augmented item |
| Table.FirstForIsFirst | syntax/table_builder.py:43-85 | the entry kept for a key is the earliest proposal for it, and there is none exactly when nothing proposes it |
| Table.NoConflictNoOrder | syntax/table_builder.py:43-85 | when every proposal for a key agrees, the visiting order does not matter |
| Table.VisitItem | syntax/table_builder.py:49-85 | one item: its proposal is written unless the key is taken, except that accept overwrites; a non-terminal after the dot writes its goto |
| Table.VisitState | syntax/table_builder.py:43-85 | the items of one state, in any order, extend both tables by their proposals |
| Table.BuildTables | syntax/table_builder.py:24-89 | every item of every state is visited; the tables are what those visits propose over the old tables |
| Table.ActionsJustified | syntax/table_builder.py:49-85 | from empty tables, every ACTION entry was proposed by an item of its state |
| Table.AcceptWins | syntax/table_builder.py:73-75 | accept for the completed augmented item is never overwritten |
| Table.ProposalsCovered | syntax/table_builder.py:49-85 | every item that proposes an action gets an entry at its key |
| Table.GotosJustified | syntax/table_builder.py:63-66 | every GOTO entry is the LALR goto of its key, on a non-terminal after the dot of an item of that state |
| Table.TableBuilder.constructor | syntax/table_builder.py:13-22 | the builder holds the grammar and empty tables |
| Table.TableBuilder.Build | syntax/table_builder.py:24-89 | both tables are extended from the LALR states and goto table, and returned |
| Generator.ParserGenerator.constructor | syntax/generator.py:19-39 | the grammar is augmented and the end marker joins its terminals; the components share it; the tables start empty |
| Generator.ParserGenerator.ComputeSets | syntax/generator.py:53-56 | FIRST and FOLLOW satisfy their rules for every production and are the least sets that do, above the initial ones |
| Generator.ParserGenerator.BuildCollection | syntax/generator.py:60-61 | a new LR(1) builder holds the canonical collection over the grammar's symbols: the start closure and the states discovered from it by gotos |
| Generator.ParserGenerator.FillTables | syntax/generator.py:69-71 | the tables are what the table builder proposes from the LALR states |
| Generator.ParserGenerator.Generate | syntax/generator.py:41-75 | the least FIRST and FOLLOW sets closed under the grammar, the canonical LR(1) collection, its LALR merge, and the tables built from it |
| Generator.GotoTargetsInRange | syntax/generator.py:60-65 | the LR(1) goto table only links states of the collection, so the merge can map every edge |
| Symbols.Make | driver/symbol.py:9-21 | a symbol with the given name and value and no attributes |
| Symbols.Render | driver/symbol.py:23-24 | the printed form is Symbol( then the name and a comma and space, then the shown value or None for a missing value, then a closing parenthesis |
| Symbols.RenderIgnoresAttributes | driver/symbol.py:23-24 | symbols that differ only in their attributes print alike |
| ParseTree.Leaf | driver/parse_tree.py:10-23 | a node with a symbol and value, no children and no production |
| ParseTree.AddChild | driver/parse_tree.py:29-31 | the child comes after the existing children, and the node is no longer terminal |
| ParseTree.ToDict | driver/parse_tree.py:33-47 | the dictionary has the symbol, the value as text or None, terminal exactly without children, the production only when non-empty, and one entry per child |
| ParseTree.ToDictKeepsShape | driver/parse_tree.py:33-47 | the dictionary tree has the node tree's symbols in the same order |
| ParseTree.Indent | driver/parse_tree.py:49-65 | two spaces per level |
| ParseTree.Label | driver/parse_tree.py:49-65 | the node's line is its symbol, then the shown value in parentheses when there is one, then the production in brackets when the node has one; its length is exactly the sum of those parts |
| ParseTree.Render | driver/parse_tree.py:49-65 | the node's line is its indentation then its symbol, ended by a newline, followed by the children's text |
| ParseTree.RenderAll | driver/parse_tree.py:62-63 | the children's text is empty exactly when there are no children |
| ParseTree.RenderOneLinePerNode | driver/parse_tree.py:49-65 | when no label spans lines, the printed tree has one line per node |
| ParseTree.ParseTreeBuilder.constructor | driver/parse_tree.py:74-75 | the node stack starts empty |
| ParseTree.ParseTreeBuilder.PushTerminal | driver/parse_tree.py:77-80 | one childless leaf is pushed on top |
| ParseTree.ParseTreeBuilder.Reduce | driver/parse_tree.py:82-114 | for epsilon or an empty right side a childless node is pushed; otherwise as many nodes as the right side has are popped, at most the whole stack, and become the children in order |
| ParseTree.ParseTreeBuilder.GetRoot | driver/parse_tree.py:116-120 | none exactly when the stack is empty, otherwise the top node |
| ParseTree.ParseTreeBuilder.Clear | driver/parse_tree.py:122-124 | the stack becomes empty |
| LrParser.Input | driver/lr_parser.py:66-72 | the tokens followed by the end marker with no value |
| LrParser.Initial | driver/lr_parser.py:66-72 | the state stack holds only state 0, with no symbols and no history |
| LrParser.ProductionAt | driver/lr_parser.py:126 | the production at the id with Python's indexing, negative ids counting from the end; others raise |
| LrParser.PopCount | driver/lr_parser.py:130-132 | the right side's length, and 0 exactly for an empty or epsilon right side |
| LrParser.SemanticValue | driver/lr_parser.py:167-189 | the callback's result when there is one, else the first popped symbol's value, else none |
| LrParser.Pushed | driver/lr_parser.py:110-122 | the target state and the token are pushed, the shift recorded, and the stacks stay balanced |
| LrParser.ReduceBy | driver/lr_parser.py:124-165 | a bad id or a pop below the stack raises; a missing goto entry fails with the history kept; a success adds one history entry |
| LrParser.ReducePushesGoto | driver/lr_parser.py:135-163 | a successful reduction pops its pairs, keeps the stacks below them, and pushes the goto state and the left side with its semantic value |
| LrParser.ReduceByGoto | driver/lr_parser.py:144-163 | with enough symbols and a goto entry, the reduction succeeds with exactly that state pushed |
| LrParser.ReduceByNoGoto | driver/lr_parser.py:144-153 | with enough symbols and no goto entry, the reduction fails |
| LrParser.Step | driver/lr_parser.py:75-108 | no entry fails; shift consumes one token; reduce keeps the position; accept happens exactly when the table says so and changes nothing; a read past the input raises |
| LrParser.StepOnShift | driver/lr_parser.py:91-93 | a shift entry pushes and moves to the next token |
| LrParser.StepOnReduce | driver/lr_parser.py:95-97 | a reduce entry continues, fails or raises as the reduction does, at the same position |
| LrParser.Run | driver/lr_parser.py:75-108 | the loop for at most the fuel; an accepted run ends where the table says accept |
| LrParser.RunContinues | driver/lr_parser.py:75-108 | with fuel left, a run goes on from where a continuing step leads |
| LrParser.RunHalts | driver/lr_parser.py:75-108 | with fuel left, a run ends where a halting step ends |
| LrParser.FuelMonotone | driver/lr_parser.py:75-108 | more fuel never changes a run that already ended |
| LrParser.AcceptConsumesInput | driver/lr_parser.py:99-104 | when accept is only written for the end marker and no token is the end marker, an accepted parse has read every token |
| LrParser.EpsilonReduction | driver/lr_parser.py:130-153 | a reduction by an epsilon production pops nothing and pushes the goto state and the left side |
| LrParser.LRParser.constructor | driver/lr_parser.py:16-40 | the grammar, tables and callback are kept, and the stacks and history start empty |
| LrParser.LRParser.HandleShift | driver/lr_parser.py:110-122 | the stacks and history become those of the shift specification |
| LrParser.LRParser.PopPairs | driver/lr_parser.py:135-138 | the popped symbols in order when there are enough; otherwise both stacks end empty |
| LrParser.LRParser.HandleReduce | driver/lr_parser.py:124-165 | the stacks and history become those of the reduction specification, and the result tells raised, failed and reduced apart |
| LrParser.LRParser.Parse | driver/lr_parser.py:42-108 | the outcome and the final stacks are those of the loop specification from the initial configuration on the input |
| LrParser.LRParser.GetParseTree | driver/lr_parser.py:200-209 | the history as recorded, and success false |
| Semantic.Decimal | driver/semantic_analyzer.py:31-38 | only decimal digits, at least one, at least two from 10 on, and no leading zero except for 0 itself |
| Semantic.DecimalInjective | driver/semantic_analyzer.py:31-38 | different numbers have different decimal forms |
| Semantic.DecimalRoundTrip | driver/semantic_analyzer.py:31-38 | reading the decimal form back as a number gives the number |
| Semantic.TempName | driver/semantic_analyzer.py:31-38 | t followed by the decimal form of the number |
| Semantic.TempNamesDistinct | driver/semantic_analyzer.py:31-38 | temporaries with different numbers have different names |
| Semantic.SemanticAnalyzer.constructor | driver/semantic_analyzer.py:20-29 | an empty symbol table, counter 0 and no code |
| Semantic.SemanticAnalyzer.NewTemp | driver/semantic_analyzer.py:31-38 | the counter grows by one, and the name differs from every name handed out before |
| Semantic.SemanticAnalyzer.Emit | driver/semantic_analyzer.py:40-48 | the instruction comes after all earlier ones, which are kept |
| Semantic.SemanticAnalyzer.AddSymbol | driver/semantic_analyzer.py:50-59 | the entry is set, replacing any earlier one, and no other entry changes |
| Semantic.SemanticAnalyzer.LookupSymbol | driver/semantic_analyzer.py:61-69 | the stored entry, present exactly when the name is in the table |
| Semantic.SemanticAnalyzer.SemanticAction | driver/semantic_analyzer.py:71-83 | no value, whatever the production and symbols |
| Semantic.SemanticAnalyzer.GetCode | driver/semantic_analyzer.py:85-87 | the instructions in the order emitted |
| Semantic.BaseActionYieldsNoValue | driver/semantic_analyzer.py:71-83 | with the base action as callback, every reduced symbol gets no value |
| Config.Terminals | utils/config_loader.py:32-35 | the token of every lexical rule, in rule order, repeats kept |
| Config.ParseConfig | utils/config_loader.py:93-128 | an error exactly when a rule lacks pattern or token or a test lacks input or expected; otherwise the rules and tests in order, with defaults for missing fields |
| Config.Contains | utils/config_loader.py:161 | true exactly when the text occurs somewhere in the string |
| Config.ShiftedOccurrence | utils/config_loader.py:161 | an occurrence not at the start is an occurrence one position earlier in the rest, and back |
| Config.Validate | utils/config_loader.py:137-165 | true exactly when there is a name, a lexical rule and a grammar rule, and every grammar rule has an arrow |
| Visualizer.FormatEdgeLabel | utils/visualizer.py:15-75 | empty for no characters, epsilon for None only, letter or digit when all of them are present, else the escaped runs joined by commas after epsilon when present |
| Visualizer.Present | utils/visualizer.py:25-29 | exactly the characters of the list, None dropped |
| Visualizer.Runs | utils/visualizer.py:42-69 | the runs of consecutive code points, each ordered, the last ending with the last character |
| Visualizer.RunsCover | utils/visualizer.py:42-69 | spelled out one after another, the runs give back exactly the characters |
| Visualizer.RunsMaximal | utils/visualizer.py:42-69 | no run begins one code point after the end of the run before it |
| Visualizer.RunLabel | utils/visualizer.py:54-69 | a run of one character is that character; a longer run is its first character, a comma when the run has exactly two code points and a dash otherwise, and its last character |
| Visualizer.MergeRuns | utils/visualizer.py:42-69 | the loop gives the label of each maximal run, in order |
| Visualizer.Escape | utils/visualizer.py:75 | the result is longer than the input by exactly its number of double quotes; it does not start with a quote, and every double quote in it is preceded by a backslash |
| Visualizer.EscapeFront | utils/visualizer.py:75 | escaping a text escapes its first character and then the rest |
| Visualizer.EscapeChar | utils/visualizer.py:75 | a double quote becomes a backslash followed by the quote, and every other character is kept unchanged |
| Visualizer.EscapeSplit | utils/visualizer.py:75 | escaping a concatenation gives the concatenation of the escaped parts, so with EscapeChar the escaped text is fixed character by character, as `str.replace` does |
| Visualizer.EscapeRoundTrip | utils/visualizer.py:75 | reading a backslash and quote back as a quote gives the original text, so escaping loses nothing |
| Visualizer.JoinWithFront | utils/visualizer.py:71-73 | joining a piece in front of a non-empty list gives the piece, the separator and the join of the rest, as `str.join` does |
| Visualizer.JoinWithEnds | utils/visualizer.py:71-73 | the joined text begins with the first piece and ends with the last |
| Visualizer.SortedHasAll | utils/visualizer.py:31-39 | sorting does not change which required characters are present |

## Left out

- Printing: `_print_step`, `print_symbol_table`, `print_intermediate_code`,
  the parser's verbose output and `__repr__` of states and items. They only
  write text.
- File input: `ConfigLoader.load` and `load_all` read files and decode
  JSON. The model starts from the decoded object with text values.
- The visualizer's drawing code other than `_format_edge_label`. It calls
  Graphviz.
- Object identity: fragments share transition sets by reference, and
  parse-tree nodes are Python objects. The model copies fragments and treats
  nodes as values.
- Thompson.ConstructIdentifier and Thompson.ConstructNumber use a fragment
  again after passing it to another constructor: `letter` goes into a union
  and then heads the concatenation (lexical/thompson.py:224-236), and `digit`
  goes into a star and then heads the concatenation (lexical/thompson.py:249-252).
  In the source, `add_transition` then adds a target to a set that several
  fragments share. The model merges maps with the right operand winning, as
  `{**a, **b}` does, and keeps the accepting flags in the factory's shared
  records. So the automaton it returns has the source's states, edges and
  flags. What the source's intermediate fragments hold after that sharing
  is not modelled; no later code reads them.
- Python set and dict iteration order is left open. Where it matters (the
  worklists, the table builder's item order), the order is a ghost output.
- `State.priority` is an optional integer. Infinity is modelled as absent.
- The `defaultdict` made in `NFA.__post_init__`: a missing key reads as no
  targets.
- `semantic_action` callbacks are pure functions. Side effects of a
  subclass's callback are not modelled.
- LrParser.Run: the parse loop is bounded by a fuel parameter, and running
  out of fuel is an outcome of its own. The source loops until it accepts or
  fails, so runs longer than the fuel are not described.
- LrParser.LRParser.GetParseTree: success is modelled as written (always
  false), since the source never sets the flag.
- Lalr.MergeGoto: the last-write-wins order of the goto merge is stated only
  as "every entry is the image of some LR(1) edge". Lalr.MergeGotoExact makes
  it exact when the merged edges do not clash.
- Lr1.LR1Builder.Build requires a non-empty production list. On an empty
  list the source fails with an IndexError.
- SubsetConstruction.Construct requires the NFA to have a start state. With
  None the source fails.
- Thompson.ConstructConcat, Thompson.ConstructUnion, Thompson.ConstructStar
  and Thompson.ConstructPlus require their input fragments to have a start
  state. Every fragment the parser and the generators build has one.
- FirstFollow.FirstFollowCalculator.ComputeFirstSets and
  FirstFollow.FirstFollowCalculator.ComputeFollowSets require every left side
  (and, for FOLLOW, the start symbol) to be a non-terminal. Otherwise the
  source fails with a KeyError. `add_production` always records them.
- Generator.ParserGenerator.Generate requires a non-empty grammar whose start
  symbol is a non-terminal, as augmentation gives.
- RegexParser.RegexParser.Parse: the automaton is proved equal to the
  Thompson automaton of the syntax tree (`Built`). The language it accepts is
  not derived from the tree.
- Grammar.Grammar.AddProduction: `str.isupper` is modelled for the
  upper-case letters of six blocks (A-Z, U+00C0-U+00D6, U+00D8-U+00DE,
  U+0391-U+03A1, U+03A3-U+03AB, U+0400-U+042F). A symbol that starts with any
  other Unicode upper-case letter is a non-terminal in the source but a
  terminal in the model.
- Grammar.Classified classifies by the same partial `str.isupper`.
- Thompson.ConstructRange: Python's `chr` also yields the lone surrogates
  U+D800 to U+DFFF, but a Dafny `char` cannot hold them. A range that spans
  them gets no edges for those code points in the model.
- Thompson.CharsBetweenSpec states the range without the surrogates U+D800
  to U+DFFF, for the same reason.
- Thompson.RangeEdgesSpec states the range's edges without the surrogates
  U+D800 to U+DFFF, for the same reason.
- LexicalGenerator.LexicalGenerator.Generate: `generate` builds the NFA
  with `construct_simple`, so the model's lexical generator covers literal
  patterns. The regular-expression parser is modelled on its own.
