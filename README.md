# hlvm_runtime core in Dafny

A model of the runtime of hlvm, a small stack machine. Its programs are
lists of dynamically typed values.

The model has three layers:

- **The value layer** covers one `Value` record with a type tag, number contents, a list, an attribute table and a native routine. On top of it sit the object behaviour (`from_string`, `as_number`, `as_string`, `as_instruction`, attributes and nested attribute paths, `index`, list push/pop, the text format) and the operators (`+ - * / %`, `!` and ordering).
- **The engine** consists of chained scopes (`Scope::new/define/get`) and the stack frame (`StackFrame`). The frame has an operand stack of value/scope pairs, a scope, an instruction list, a count of arguments borrowed from the parent frame, and an optional parent frame. The engine also covers the dispatch of every instruction (`step`), `run`, `while_function`, `call`, `load`, `store`, `push`, `push_value`, `pop` and `pop_value`.
- **Two views of the engine:**
  - Module `Frames` gives the engine as functions over frame values.
  - Class `Stack.StackFrame` gives it as an object whose methods update its fields in place, with loops where the code has loops.
  - Every method of the class is proved to end in the state the corresponding function computes, and to report the same fault.
  - The properties of the engine are lemmas about the functions (module `FrameFacts`) and worked programs (module `Scenarios`).

Modules, in dependency order:

- `Results`: `Option` and the `Outcome` of the engine. An outcome is a value, a fatal fault, or `Exhausted` when the fuel bound runs out.
- `Numbers`: a number is an `int`. This module has the `as u8 as char` and `as usize` truncations and the decimal text of a number.
- `Tables`: the insertion-ordered attribute and binding table.
- `Values`: the `Type`, `Instruction` and `Problem` enums, `Value`, `Object::new`, and the `Host`. The `Host` supplies what the core cannot see: the numeric backend's `/` and `%`, and native routines.
- `Objects`: the object behaviour.
- `Operators`: the operators of `value.rs`.
- `Scopes`: scopes.
- `Frames`: the engine as functions.
- `FrameFacts`: lemmas about the engine functions.
- `Scenarios`: example programs.
- `Stack`: the `StackFrame` class.

A fatal condition in the code prints a message and exits the process. In the model it is a `Fail` outcome, with one `Fatal` kind per condition:

- `StackUnderflow`: popping an empty frame that has no parent.
- `NoInstance`: an attribute instruction with no Instance on the frame's stack.
- `TooFewItems`: too few entries left after taking an attribute name.
- `NoAttributeName`: an empty attribute path.
- `IndexPanic`: a List or Function index out of bounds. The code panics there.

Behaviour that follows the code rather than the design:

- `Scope::get` returns a binding found in the scope's own table exactly as stored, including its scope, because of the early `return` (`src/stack.rs:36`). Only a binding found in an enclosing scope has its scope replaced by an empty one, and only when the value is not a Function.
- `store` pairs the value with an empty scope exactly when the value's scope equals the frame's current scope. It does not look at whether the value is a Function (`src/stack.rs:419-429`).
- A `Load` of an unbound name inside a called function resolves in the parent, which is the callee's private copy of the caller. When the parent has to take the value from its stack, it pops it there, and the callee's own borrowed-argument count is not incremented. So the caller's real stack keeps those entries after the call (`Scenarios.CalleeLoadsCopyArguments`). Only an argument taken by the callee's own `pop` (as `Add` does, `Scenarios.CallBorrowsArguments`) is removed from the caller.
- Whether a stored Function keeps its defining scope depends on the order of the stores. A literal Function is pushed with the frame's scope at that moment (`src/stack.rs:438-443`), and `store` replaces a pair's scope with an empty one exactly when it equals the frame's scope at the moment of the store (`src/stack.rs:419-423`). If the frame's scope is still the one the Function was pushed with, the Function is bound with the empty scope and loads back with it. `call` then runs the body in that scope (`src/stack.rs:376-380`), so a free name in the body is unbound there and is looked up in the caller copy (`src/stack.rs:402-406`). It sees the caller's binding at call time, including a redefinition made after the Function was stored (`Scenarios.StoredFunctionSeesCallerBinding`). If another store has given the frame a new scope in between, the Function keeps the scope it was pushed with, and a call resolves free names there, as the design describes (`Scenarios.FunctionKeepsDefiningScope`).

## Model

Each function `Frames.X` of the engine models the same source lines as the method `Stack.StackFrame.X`, whose row states that the method ends exactly as `Frames.X` does; the engine's own properties are the `FrameFacts` rows. `Operators.Sub`, `Mul`, `Div` and `Rem` (`src/value.rs:57-118`) and the dispatch `Operators.Binary` are stated through the `Operators.NumericOnly` and `Operators.ArithmeticTypeDiscipline` rows.

| member | source | states |
|---|---|---|
| Numbers.ToChar | src/number.rs:68-79 | the character code is the number mod 256 (the low eight bits), so a code in 0..255 is kept as is |
| Numbers.ToUsize | src/number.rs:56-66 | a negative number wraps to n + 2^64, as an i32 cast to a 64-bit usize does; a number in range is kept |
| Numbers.Text | src/number.rs:159-162 | non-empty text of decimal digits, with a single leading minus exactly when the number is negative |
| Numbers.DigitsDenote | src/number.rs:159-162 | the digits of a natural number read back as that number, start with 0 only for 0, and have no leading zero |
| Numbers.TextRoundTrip | src/number.rs:159-162 | the text of any number reads back as that number; it starts with a minus exactly for a negative number, and its digits have no leading zero |
| Values.New | src/value.rs:139-147 | the value has the given tag and contents, an empty list, an empty attribute table and the identity native routine |
| Tables.EmptyTable | src/stack.rs:21-26 | a new table has no keys, unique keys, and no entry for any name |
| Tables.Table.Keys | src/object.rs:354-358 | one key per entry, in insertion order |
| Tables.Table.Get | src/object.rs:170-178 | a value is found exactly when the name is among the keys, and it is the value stored with that name |
| Tables.Table.Set | src/stack.rs:29-31 | afterwards the name maps to the new value; every other name maps as before; an existing key keeps its position; a new key is appended; unique keys stay unique |
| Tables.SetTwice | src/object.rs:236-240 | setting a name twice equals setting it once to the second value |
| Tables.GetAt | src/object.rs:357-361 | with unique keys, the key at position i gets the value stored at position i |
| Objects.Codes | src/object.rs:19-27 | one code per character, equal to the character's code point |
| Objects.FromString | src/object.rs:19-27 | the character-by-character loop yields exactly Codes(s) |
| Objects.GetAttr | src/object.rs:170-178 | the stored attribute, or Nothing when the name is absent |
| Objects.AsNumber | src/object.rs:180-187 | the first number of the contents, or 0 when there is none |
| Objects.StringOf | src/object.rs:201-213 | one character per number of the contents, each cut to eight bits |
| Objects.AsString | src/object.rs:201-213 | the appending loop yields exactly StringOf(v) |
| Objects.AsInstruction | src/object.rs:219-224 | the instruction of a Command value, and Pass for every other value |
| Objects.StringRoundTrip | src/object.rs:201-213 | text whose characters are all below 256 survives the trip into a Str value and back |
| Objects.CodesRoundTrip | src/object.rs:19-27 | contents survive the trip into text and back exactly when every code is in 0..255 |
| Objects.SetAttr | src/object.rs:236-240 | only the attribute table changes, and it becomes the table with the name set |
| Objects.GetAttrRecursive | src/object.rs:242-263 | fatal (NoAttributeName) exactly on the empty path, otherwise a value |
| Objects.SetAttrRecursive | src/object.rs:265-291 | fatal exactly on the empty path; otherwise it returns the receiver with only its table changed; the first name keeps its place or is appended |
| Objects.GetAttrSingle | src/object.rs:249-254 | a one-name path reads the stored attribute, or Nothing when the name is absent |
| Objects.EmptyInstanceReadsNothing | src/object.rs:256-262 | every non-empty path through an empty instance reads Nothing |
| Objects.GetAttrMissingLevel | src/object.rs:256-262 | a missing first level of a longer path counts as an empty instance, so the path reads Nothing |
| Objects.GetAfterSetAttrRecursive | src/object.rs:265-291 | reading a non-empty path just written yields the value written, with missing levels created on the way |
| Objects.SetAttrSingleOthers | src/object.rs:273-277 | writing a single name leaves every other attribute as it was |
| Objects.SetAttrTwice | src/object.rs:273-277 | writing a single name twice equals writing it once with the second value (overwrite in place) |
| Objects.Index | src/object.rs:294-313 | Str in range: exactly the fresh Str value holding the one character at that position; Str out of range: OutOfRange; List/Function: the element; any other tag: ValueError |
| Objects.ListPush | src/object.rs:315-321 | the tag becomes List, the element is appended at the end, and nothing else changes |
| Objects.ListPop | src/object.rs:323-328 | the last element, or Nothing for an empty list; the receiver is not changed |
| Objects.ListPopAfterPush | src/object.rs:315-328 | popping after a push gives back the pushed element |
| Objects.CallForeign | src/object.rs:330-332 | the identity routine that every new value carries returns its argument |
| Objects.Format | src/object.rs:334-375 | the append-then-strip-separator loops yield exactly the reference text Formatted(v) |
| Objects.FormatList | src/object.rs:339-351 | a list's text is "[]" when empty, otherwise its elements' texts joined by ", " inside brackets |
| Objects.FormatInstance | src/object.rs:352-369 | an instance's text is "<>" without keys, otherwise, for each key in table order, the key, a colon and the text of get_attr of that key, joined by ", " inside angle brackets |
| Objects.FormatAttribute | src/object.rs:361 | the text of get_attr of a key: the text of the first entry with that key, or "None" when no entry has it |
| Objects.FormatEmpty | src/object.rs:339-371 | an empty list gives "[]", an empty instance "<>", a Function "Function" and Nothing "None" |
| Objects.FormatListExample | src/object.rs:339-351 | the list of Str "a" and Num 1 gives "[a, 1]" |
| Objects.FormattedAttributeAt | src/object.rs:357-363 | the part for key i is that key, a colon and the text of get_attr of that key; with unique keys, that is the text of the i-th stored value |
| Operators.NumericOnly | src/value.rs:57-118 | mismatched tags give IncompatibleTypes; equal non-Num tags give ValueError; two numbers give exactly the Num value holding the result |
| Operators.Add | src/value.rs:42-55 | mismatched tags give IncompatibleTypes; Num+Num gives exactly the Num value of the sum; Str+Str gives exactly the Str value of the concatenated text; other equal tags give ValueError |
| Operators.Not | src/value.rs:120-134 | the result is 0 or 1, and it is 1 exactly for the number zero |
| Operators.ArithmeticTypeDiscipline | src/value.rs:42-118 | under all five operators, mismatched tags give IncompatibleTypes; every operator but + gives ValueError on two equal non-Num tags (Str included); two numbers give a Num |
| Operators.SubUndoesAdd | src/value.rs:40-70 | on numbers, subtracting b undoes adding b and adding b undoes subtracting b; swapping the operands of a subtraction negates its result |
| Operators.Compare | src/value.rs:29-39 | values are ordered by as_number alone: Below exactly when less, Above exactly when greater |
| Operators.EmptyComparesAsZero | src/object.rs:180-187 | a value without contents compares exactly as the number zero, on either side |
| Operators.CompareAntisymmetric | src/value.rs:35-39 | swapping the operands swaps Below and Above and keeps Same |
| Scopes.New | src/stack.rs:21-26 | a new scope has the given parent and no bindings |
| Scopes.Define | src/stack.rs:29-31 | the name is bound to the pair in this scope; other names and the parent are unchanged |
| Scopes.Get | src/stack.rs:34-52 | a binding of this scope is returned as stored; any other result is a Function or carries the empty scope |
| Scopes.GetIsInnermost | src/stack.rs:34-52 | an unbound name gives (Nothing, empty scope); a bound one gives the innermost binding's value; an inherited binding keeps its scope exactly when it is a Function |
| Scopes.GetAfterDefine | src/stack.rs:29-52 | a lookup right after define gives the pair just defined |
| Scopes.GetAfterDefineOther | src/stack.rs:29-52 | defining one name does not change the lookup of any other name |
| Frames.Reversed | src/stack.rs:276 | the reversed sequence has the same length with positions mirrored |
| FrameFacts.PopIsVisibleTop | src/stack.rs:447-472 | pop succeeds exactly when the frame or its ancestors hold an entry, and is otherwise StackUnderflow; it returns the top of the visible stack and removes it; a non-empty frame loses exactly its last entry; the count grows by one exactly when the entry is borrowed from the parent |
| FrameFacts.DiscardIsVisiblePrefix | src/stack.rs:385-389 | discarding n entries removes the top n of the visible stack, and is StackUnderflow exactly when fewer are visible |
| FrameFacts.PushOnVisible | src/stack.rs:432-444 | a push puts exactly one entry on top; push_value pairs the value with the current scope |
| FrameFacts.AppendOnVisible | src/stack.rs:391-395 | appending entries to the frame appends them to its visible stack |
| FrameFacts.TwoPops | src/stack.rs:475-499 | two value pops give the top and the entry below it and remove both |
| FrameFacts.IfSelects | src/stack.rs:113-124 | If fails exactly when fewer than 3 entries are visible; otherwise the three top entries are replaced by a (then-branch) when c is neither 0 nor Nothing, and by b otherwise; the kept entry keeps its own scope |
| FrameFacts.ComparisonsPushFlag | src/stack.rs:146-176 | Equal, Greater and Less replace the two top entries by 1 or 0: structural equality, top > next and top < next by as_number; each fails with fewer than two entries |
| FrameFacts.ComparisonsConsistent | src/stack.rs:157-176 | on the same stack, Greater and Less never both push 1; with the two top entries swapped, Equal leaves the same stack and Greater leaves what Less leaves on the original |
| FrameFacts.ArithmeticPushesResult | src/stack.rs:186-218 | the five arithmetic instructions replace the two top entries by top op next, with the frame's scope; each fails with fewer than two entries |
| FrameFacts.LiteralsPushThemselves | src/stack.rs:339 | a non-instruction value or Pass is pushed unchanged with the current scope, and nothing is printed |
| FrameFacts.CollectNamesSpec | src/stack.rs:248-270 | the name loop pops every entry above the topmost Instance, top first; it fails with TooFewItems when fewer than the minimum would remain; otherwise it leaves the Instance on top |
| FrameFacts.GetAttrReadsPath | src/stack.rs:243-281 | GetAttr reads the path given by the entries above the topmost Instance, with the first pushed name as the root, and replaces them with the attribute; with no name it is NoAttributeName |
| FrameFacts.SetAttrWritesData | src/stack.rs:284-323 | when at least one name and one data entry are present, SetAttr succeeds and leaves the entries below the data followed by the updated Instance |
| FrameFacts.SetAttrWritesPath | src/stack.rs:284-324 | SetAttr writes the entry directly beneath the Instance along the path and replaces them all with the updated Instance; with no name it is NoAttributeName; an Instance at the bottom is TooFewItems |
| FrameFacts.NoInstanceFatal | src/stack.rs:248-250 | with no Instance on the frame's stack, both attribute instructions fail with NoInstance |
| FrameFacts.SetAttrThenGetAttr | src/stack.rs:243-324 | the value SetAttr wrote is what the same path reads on the Instance it leaves |
| FrameFacts.StoreStripRule | src/stack.rs:419-429 | store binds the name to the entry, with an empty scope exactly when the entry's scope is the frame's; other names are unaffected; only the scope changes |
| FrameFacts.LoadTakesArgument | src/stack.rs:399-416 | in a frame without a parent, an unbound name pops the top entry, stores it under the name and returns it; when the popped entry is itself the unbound pair, the load starts again on the shorter stack; on an empty stack the load is StackUnderflow |
| FrameFacts.LoadInCalleeKeepsOwnStack | src/stack.rs:399-416 | in a callee of a root frame, a name unbound in both is popped from the root copy's stack and stored there (when the popped entry is not the unbound pair); the load returns it, and the callee's own stack, scope and count are unchanged, so one entry fewer is visible |
| FrameFacts.PrimitivesKeep | src/stack.rs:399-499 | pop, load, the name loop and discarding keep the instruction list, and never lower the borrowed-argument count |
| FrameFacts.StepExtends | src/stack.rs:97-341 | no instruction changes the instruction list or lowers the count, and printing only appends to the output |
| FrameFacts.RunFromExtends | src/stack.rs:88-95 | the same holds for running a list of instructions |
| FrameFacts.WhileExtends | src/stack.rs:356-371 | the same holds for a while loop |
| FrameFacts.CallExtends | src/stack.rs:374-396 | the same holds for a call |
| FrameFacts.RunExtends | src/stack.rs:88-95 | the same holds for a whole run, so the count a run leaves is never negative |
| FrameFacts.CallStackEffect | src/stack.rs:374-396 | after a call, the caller's visible stack is its prior stack minus its top k entries (k = the callee's borrowed count), followed by the callee's remaining entries in their order; the call fails exactly when k exceeds the caller's stack; the callee's faults propagate |
| FrameFacts.RunFromConcat | src/stack.rs:88-95 | running a concatenation runs the first part and then the second, stopping at the first fault |
| FrameFacts.RunFuel | src/stack.rs:88-95 | a run that finishes with some fuel finishes the same way with more, so fuel only bounds the model |
| Scenarios.NestedPath | src/object.rs:242-291 | on a nested instance, the path a.b reads the leaf, and writing it rebuilds the nesting with the new leaf |
| Scenarios.GetAttrExample | src/stack.rs:243-281 | with an instance and then the names "a", "b" on top of any stack, GetAttr replaces those three entries by exactly the value at path a.b of the instance |
| Scenarios.SetAttrExample | src/stack.rs:284-324 | with a data entry, an instance and then the names "a", "b" on top of any stack, SetAttr replaces those four entries by exactly the instance with the data written at path a.b |
| Scenarios.UnderflowIsFatal | src/stack.rs:475-499 | Print and Add on an empty root frame are StackUnderflow, never a default value |
| Scenarios.CallBorrowsArguments | src/stack.rs:374-396 | calling a function whose body is Add with 2 and 3 on the stack borrows both (count 2) and leaves only 5 |
| Scenarios.CalleeRunLeaves | src/stack.rs:399-416 | the callee that loads two unbound names runs to completion with b and then a on its own stack, a borrowed count of 0 and no output |
| Scenarios.StoredFunctionSeesCallerBinding | src/stack.rs:376-443 | a literal Function stored while the frame's scope is still the one it was pushed with loads back with the empty scope, so in a call of it a free name resolves to the caller's binding at call time, not the one current when it was stored |
| Scenarios.FunctionKeepsDefiningScope | src/stack.rs:376-443 | a literal Function stored after a store of another name changed the frame's scope keeps the scope it was pushed with; called, it resolves a free name in that scope even after the caller redefines the name |
| Scenarios.CalleeLoadsCopyArguments | src/stack.rs:399-416 | a function that loads two unbound names takes them from the caller copy with count 0, so the caller keeps a, b and receives b, a |
| Stack.StackFrame.constructor | src/stack.rs:66-74 | the frame has the given parent, scope and instructions, an empty stack and a count of 0 |
| Stack.StackFrame.FromInstructions | src/stack.rs:77-85 | a root frame with no parent, the empty scope, an empty stack and a count of 0 |
| Stack.StackFrame.Pop | src/stack.rs:447-472 | the entry and the new state are exactly those of Frames.Pop, including the borrow from the parent and the fault |
| Stack.StackFrame.PopValue | src/stack.rs:475-499 | as Pop, returning the value only |
| Stack.StackFrame.Push | src/stack.rs:432-435 | the entry is appended to the stack |
| Stack.StackFrame.PushValue | src/stack.rs:438-444 | the value is appended, paired with the current scope |
| Stack.StackFrame.Store | src/stack.rs:419-429 | the scope becomes that of Frames.Store (see FrameFacts.StoreStripRule) |
| Stack.StackFrame.Load | src/stack.rs:399-416 | the result and the new state are those of Frames.Load, including the pop-store-retry at the root |
| Stack.StackFrame.CollectNames | src/stack.rs:248-270 | the name loop ends in the names and state of Frames.CollectNames (see FrameFacts.CollectNamesSpec) |
| Stack.StackFrame.ExecPrint | src/stack.rs:100-102 | pops a value and appends its format, plus a newline for Println, to the output |
| Stack.StackFrame.ExecWhile | src/stack.rs:107-111 | pops the condition and then the body and runs the loop, as Frames.ExecWhile |
| Stack.StackFrame.ExecIf | src/stack.rs:113-124 | the state of Frames.ExecIf (see FrameFacts.IfSelects) |
| Stack.StackFrame.ExecAppend | src/stack.rs:126-131 | pops the list and a value and pushes the list with the value appended |
| Stack.StackFrame.ExecListPop | src/stack.rs:133-137 | pops the list and pushes its last element or Nothing |
| Stack.StackFrame.ExecIndex | src/stack.rs:139-143 | pops the receiver and the index and pushes the indexed value; a List/Function index out of bounds is IndexPanic |
| Stack.StackFrame.ExecEqual | src/stack.rs:146-154 | the state of Frames.ExecEqual (see FrameFacts.ComparisonsPushFlag) |
| Stack.StackFrame.ExecGreater | src/stack.rs:157-165 | the state of Frames.ExecGreater (see FrameFacts.ComparisonsPushFlag) |
| Stack.StackFrame.ExecLess | src/stack.rs:168-176 | the state of Frames.ExecLess (see FrameFacts.ComparisonsPushFlag) |
| Stack.StackFrame.ExecNot | src/stack.rs:180-183 | pops a value and pushes its negation |
| Stack.StackFrame.ExecArith | src/stack.rs:186-218 | the state of Frames.ExecArith (see FrameFacts.ArithmeticPushesResult) |
| Stack.StackFrame.ExecCall | src/stack.rs:221-224 | pops the callee with its scope and calls it, as Frames.ExecCall |
| Stack.StackFrame.ExecLoad | src/stack.rs:227-231 | pops a name, loads it and pushes the result, as Frames.ExecLoad |
| Stack.StackFrame.ExecStore | src/stack.rs:236-240 | pops a name and then an entry and stores the entry, as Frames.ExecStore |
| Stack.StackFrame.ExecGetAttr | src/stack.rs:243-281 | the state of Frames.ExecGetAttr (see FrameFacts.GetAttrReadsPath) |
| Stack.StackFrame.ExecSetAttr | src/stack.rs:284-324 | the state of Frames.ExecSetAttr (see FrameFacts.SetAttrWritesPath) |
| Stack.StackFrame.WriteAlong | src/stack.rs:317-323 | pops the Instance and then the data and pushes the Instance with the data written along the path, as Frames.WriteAlong |
| Stack.StackFrame.ExecExecute | src/stack.rs:330-336 | pops the routine and then the argument and pushes the routine's result |
| Stack.StackFrame.Step | src/stack.rs:97-341 | each instruction ends in the state and fault of Frames.Step |
| Stack.StackFrame.Steps | src/stack.rs:91-93 | the for-loop over a list of instructions ends as Frames.RunFrom, stopping at the first fault |
| Stack.StackFrame.Run | src/stack.rs:88-95 | running the frame's own list ends as Frames.Run |
| Stack.StackFrame.While | src/stack.rs:356-371 | the condition/pop/test/body loop ends as Frames.While |
| Stack.StackFrame.Discard | src/stack.rs:385-389 | popping n entries in a loop ends as Frames.Discard (see FrameFacts.DiscardIsVisiblePrefix) |
| Stack.StackFrame.Receive | src/stack.rs:391-395 | reversing the callee's stack and popping it empty appends the callee's entries to this frame in their original order and leaves the callee empty; the callee's borrowed count and parent are unchanged |
| Stack.StackFrame.Call | src/stack.rs:374-396 | a child frame on a copy of this one runs, the borrowed count is discarded and the leftovers received, as Frames.Call (see FrameFacts.CallStackEffect) |

## Left out

- Numbers: the backend is IEEE 754-2008 decimal128 floating point. Here a number is an unbounded integer: no rounding, no fractions, no NaN, and the panic of its ordering on NaN is not modelled.
- Numbers.ToChar, Numbers.ToUsize: the model applies the `as u8` and `as usize` truncations to the integer directly. It does not model the decimal-to-i32 conversion before them for values outside the i32 range.
- Operators.Div, Operators.Rem: the backend's division and remainder are functions the `Host` supplies. Division by zero is whatever the host gives.
- Numbers.Text: integers are printed in plain decimal. The backend's exponent and trailing-zero formatting of decimal128 is not modelled.
- Print and Println: console output is modelled as a transcript string that grows at the end. `Display` for values is not modelled.
- Fatal faults: `throw` and `throw_no_stack` end the process. The model returns a `Fail` outcome instead. The error text and the stack dump are not modelled.
- The "Could not get back item from stack" branch of the attribute loops is unreachable: the loop only gets there when the frame's own stack holds an Instance, so it is not empty. It is not modelled.
- Index: a List or Function index out of bounds panics in the code. `Objects.Index` requires an index in range, and the `Index` instruction reports `IndexPanic`.
- Execute: native routines are handles that the `Host` interprets. Only the identity routine, which every new value carries, is given a meaning.
- Fuel: `run`, `while_function` and `call` can run forever. The model bounds each loop round and each call by one unit of fuel and returns `Exhausted` when it runs out. `FrameFacts.RunFuel` shows this bound only ever cuts a run short.
- The borrowed-argument count is an unbounded integer, so its i32 overflow is not modelled.
- The parent frame is held by value in both views: it is the copy `call` makes. The class does not allocate it as a separate object.
- Objects.SetAttr, Objects.SetAttrRecursive, Objects.ListPush: these update the receiver in place in the code and return the updated copy in the model. Values are copied on every use in the code, so no alias can observe the difference.
- `Table`: its source file is not part of this model. Only its interface behaviour is modelled, as an insertion-ordered association list where `set` overwrites in place.
- Numeric parsing (`string_to_number`), `from_f64`, the literal helpers and macros, the demo program and the module list are not part of this model.
