# Rust book exercises, modelled in Dafny

This project models a set of exercises that follow the chapters of *The Rust
Programming Language*. Their centre is the blog-post review workflow of
chapter 18, written in two designs:

- **State pattern** (`blog_nonrust_way`). A `Post` owns its `content` and an
  `Option<Box<dyn State>>`. Each transition `take()`s the state and writes
  back what the state object returns.
- **Typestate** (`blog_rust_way`). `DraftPost`, `PendingReviewPost` and `Post`
  are separate types. Each transition consumes its input.

Each design comes with a scenario that drives it. The model proves both
scenarios, and proves that the two designs publish the same text.

Around that centre are the small rules from the other chapters:

- structs and methods (`Rectangle`, `User`, `Guess`);
- closures over an inventory;
- finding the largest element;
- byte-slice scanning for the first word;
- `split_at_mut`;
- operator overloading for points and for millimetres plus metres;
- iterator adaptors and filters;
- vectors, hash maps and a word counter;
- control-flow loops;
- `Result` propagation and `last_char_of_first_line`;
- pattern matching (coins, `Option`, dice, match guards, `@` bindings, if-let cascades);
- function pointers;
- generic structs;
- string building and trait summaries.

The core design decisions:

- **Integer widths.** Rust's `u8`, `i32`, `u32` and `u64` are newtypes in
  `RustInts`. An arithmetic overflow, which panics in a debug build, becomes a
  precondition, because Dafny checks every newtype operation stays in range.
- **Remainder.** Rust's `%` truncates toward zero. It is written out as
  `RustRem`, and its sign behaviour is proved.
- **Mutation.** Code that mutates in place is modelled as a class or as a
  method with loops:
  - `BlogNonRustWay.Post`, `BlogRustWay.DraftPost` and `Rectangles.Rectangle`;
  - `Vectors.Vec` and `HashMaps.HashMap`;
  - the `StdIter` iterators;
  - the loops of `control_flow.rs`.
- **Pure code** becomes datatypes, functions and lemmas.
- **File and console I/O.** The outcome of an I/O call is taken as a
  `Result` parameter. A printed value is returned as an out-parameter.

Shared modules:

- `Std`: `Option`/`Result` with Rust's variant names.
- `StdIter`: `slice::Iter`, `Map` and `Range`.
- `Text`: Unicode White_Space, `trim`, `split_whitespace` and decimal
  formatting.

## Model

| member | source | states |
|---|---|---|
| BlogNonRustWay.State.RequestReview | 18-oo-rust/blog_nonrust_way/src/lib.rs:27-55 | Draft moves to PendingReview; PendingReview and Published stay where they are |
| BlogNonRustWay.State.Approve | 18-oo-rust/blog_nonrust_way/src/lib.rs:27-55 | PendingReview moves to Published; Draft and Published stay where they are |
| BlogNonRustWay.State.Content | 18-oo-rust/blog_nonrust_way/src/lib.rs:18-20 | the post's text is shown only in Published, and "" is shown in every other state |
| BlogNonRustWay.Post.constructor | 18-oo-rust/blog_nonrust_way/src/lib.rs:67-72 | a new post is a Draft with empty content |
| BlogNonRustWay.Post.Content | 18-oo-rust/blog_nonrust_way/src/lib.rs:74-76 | returns the content exactly when the state is Published, and "" otherwise; the state is always Some, so the unwrap cannot panic |
| BlogNonRustWay.Post.AddText | 18-oo-rust/blog_nonrust_way/src/lib.rs:78-81 | appends the text in every state and leaves the state unchanged |
| BlogNonRustWay.Post.RequestReview | 18-oo-rust/blog_nonrust_way/src/lib.rs:83-95 | the state becomes Some of the current state's transition; content unchanged |
| BlogNonRustWay.Post.Approve | 18-oo-rust/blog_nonrust_way/src/lib.rs:97-101 | the state becomes Some of the current state's approval; content unchanged |
| BlogNonRustWay.RunState | 18-oo-rust/blog_nonrust_way/src/lib.rs:27-59 | after any call sequence the post is Published iff an approve followed a review request, PendingReview iff a review was requested but not yet approved, and Draft otherwise |
| BlogNonRustWay.RunContent | 18-oo-rust/blog_nonrust_way/src/lib.rs:78-101 | the stored content is the concatenation of all added texts, whatever transitions were interleaved |
| BlogNonRustWay.VisibleContent | 18-oo-rust/blog_nonrust_way/src/lib.rs:74-76 | the visible content is all added text once approved after review, and "" before |
| BlogNonRustWay.PublishedIsFinal | 18-oo-rust/blog_nonrust_way/src/lib.rs:47-55 | once Published, no further call changes the state |
| StatePatternNonRust.Run | 18-oo-rust/src/state_pattern_nonrust.rs:11-36 | content is "" after new, after add_text, after an early approve and while pending; after review and approve it is exactly the salad sentence |
| StatePatternNonRust.RunMatchesActions | 18-oo-rust/src/state_pattern_nonrust.rs:11-36 | the scenario's call sequence ends Published, with the salad sentence visible |
| BlogRustWay.Post.Content | 18-oo-rust/blog_rust_way/src/lib.rs:94-96 | the published post shows its stored content |
| BlogRustWay.PendingReviewPost.Approve | 18-oo-rust/blog_rust_way/src/lib.rs:101-105 | approval carries the content unchanged into the published Post |
| BlogRustWay.DraftPost.constructor | 18-oo-rust/blog_rust_way/src/lib.rs:88-92 | Post::new gives a draft with empty content |
| BlogRustWay.DraftPost.AddText | 18-oo-rust/blog_rust_way/src/lib.rs:109-112 | appends the text to the draft's content |
| BlogRustWay.DraftPost.RequestReview | 18-oo-rust/blog_rust_way/src/lib.rs:115-119 | carries the content unchanged into a PendingReviewPost |
| BlogRustWay.WriteDraft | 18-oo-rust/blog_rust_way/src/lib.rs:88-112 | a new draft after add_text with each text in turn holds exactly those texts concatenated in order |
| BlogRustWay.WrittenAppends | 18-oo-rust/blog_rust_way/src/lib.rs:109-112 | adding more texts only appends after what was already written |
| BlogRustWay.AddCalls | 18-oo-rust/blog_rust_way/src/lib.rs:109-112 | one state-pattern add_text call per typestate add_text, in order |
| BlogRustWay.AddCallsText | 18-oo-rust/blog_rust_way/src/lib.rs:109-112 | those calls add exactly the text the draft accumulates |
| BlogRustWay.TypestateAgreesWithStatePattern | 18-oo-rust/blog_rust_way/src/lib.rs:88-119 | adding texts, requesting review and approving publishes the same text in both designs |
| StatePatternRust.Run | 18-oo-rust/src/state_pattern_rust.rs:18-46 | new, add_text, request_review, approve publishes exactly "I ate a salad for lunch today" |
| Adder.Add | 12-tests/src/lib.rs:1-3 | the u64 sum; overflow is excluded by precondition |
| Adder.AddCommutes | 12-tests/src/lib.rs:1-3 | add is commutative |
| Adder.AddTwo | 12-tests/src/lib.rs:5-7 | the result exceeds the argument by exactly 2 |
| Adder.Greeting | 12-tests/src/lib.rs:9-11 | "Hello, " then the name then "!" |
| Adder.GreetingContainsName | 12-tests/src/lib.rs:9-11 | every greeting contains the name |
| Adder.PrintsAndReturns10 | 12-tests/src/lib.rs:13-16 | returns 10 whatever the argument |
| Adder.Rectangle.CanHold | 12-tests/src/lib.rs:25-27 | holding a rectangle whose sides are not negative means a strictly larger area |
| Adder.CanHoldIsStrictOrder | 12-tests/src/lib.rs:25-27 | can_hold is irreflexive, asymmetric and transitive |
| Adder.NewGuess | 12-tests/src/lib.rs:35-42 | succeeds iff 1 <= value <= 100 and then stores value; below 1 and above 100 it panics with the matching message |
| Adder.ItAdds | 12-tests/src/lib.rs:81-84 | add(2, 2) == 4 |
| Adder.ItAddsTwo | 12-tests/src/lib.rs:87-89 | add_two(4) == 6 and add_two(2) == 4 |
| Adder.GreetingContainsCarol | 12-tests/src/lib.rs:92-99 | the greeting for Carol contains "Carol" |
| Adder.LargerCanHoldSmaller | 12-tests/src/lib.rs:102-126 | 8x7 holds 5x1, and 5x1 does not hold 8x7 |
| Adder.GreaterThan100Panics | 12-tests/src/lib.rs:128-138 | Guess::new(200) panics with "less than or equal 100" |
| Adder.ReturnsTen | 12-tests/src/lib.rs:141-151 | prints_and_returns_10 gives 10, so the failing test's expected 5 is not met |
| Rectangles.Rectangle.constructor | 05-structs_methods_associated-fns/src/main.rs:111-131 | a rectangle with the given width and height |
| Rectangles.Rectangle.Square | 05-structs_methods_associated-fns/src/main.rs:102-108 | width == height == size |
| Rectangles.Rectangle.Area | 05-structs_methods_associated-fns/src/main.rs:72-74 | width times height, the same area as the free function over the two fields |
| Rectangles.Rectangle.SetWidth | 05-structs_methods_associated-fns/src/main.rs:76-78 | width becomes w, height unchanged |
| Rectangles.AreaFromSimpleVars | 05-structs_methods_associated-fns/src/main.rs:26-28 | width times height, so the area divided by a non-zero width gives the height, and the area is 0 iff a side is 0 |
| Rectangles.AreaFromTuple | 05-structs_methods_associated-fns/src/main.rs:30-44 | component 0 times component 1 |
| Rectangles.AreaFromStruct | 05-structs_methods_associated-fns/src/main.rs:49-51 | the struct's width times its height |
| Rectangles.Rectangle.CanHold | 05-structs_methods_associated-fns/src/main.rs:80-82 | a rectangle that holds another (strictly wider and taller) has a strictly larger area |
| Rectangles.AreasAgree | 05-structs_methods_associated-fns/src/main.rs:26-51 | the struct, tuple and method forms compute the same area |
| Rectangles.SquareArea | 05-structs_methods_associated-fns/src/main.rs:102-108 | a square's area is size times size |
| Rectangles.Methods | 05-structs_methods_associated-fns/src/main.rs:111-131 | 30x50 holds 10x40 but not 60x45 |
| Rectangles.AssociatedFunctions | 05-structs_methods_associated-fns/src/main.rs:135-172 | a 7x5 rectangle has area 35, and 10 after set_width(2) |
| Inventory.CountsCoverStock | 13-closures/src/lib.rs:17-25 | the red count plus the blue count is the number of shirts |
| Inventory.Inventory.MostStocked | 13-closures/src/lib.rs:17-31 | Red iff strictly more red than blue shirts; ties and an empty inventory give Blue |
| Inventory.Inventory.Giveaway | 13-closures/src/lib.rs:12-15 | the preference when there is one, otherwise the most stocked colour |
| Inventory.StoreGiveaway | 13-closures/src/lib.rs:34-58 | with four red and two blue shirts, a Blue preference gets Blue and no preference gets Red |
| Largest.Largest | 10-generics/src/largest.rs:3-11 | for a non-empty list, an index of an element no element exceeds, and the first such index |
| Largest.Examples | 10-generics/src/largest.rs:13-21 | 101 for the numbers and 'z' for the chars |
| Slices.AsciiBytes | 03-lang-concepts/src/datatypes/slices.rs:14-16 | the bytes of an ASCII string, one per char with the same code |
| Slices.FirstWordEnd | 03-lang-concepts/src/datatypes/slices.rs:14-24 | the index of the first space byte, or the length; no earlier byte is a space |
| Slices.FirstWordIterative | 03-lang-concepts/src/datatypes/slices.rs:14-24 | the scanning loop returns that index |
| Slices.FirstWordSlices | 03-lang-concepts/src/datatypes/slices.rs:27-38 | the scanning loop returns the prefix up to that index |
| Slices.FirstWordIsPrefix | 03-lang-concepts/src/datatypes/slices.rs:27-38 | the first word is a prefix whose length is the first-space index |
| Slices.FirstWordOfJoin | 03-lang-concepts/src/datatypes/slices.rs:14-24 | a space-free word followed by a space and anything is its own first word |
| Slices.AsciiBytesAppend | 03-lang-concepts/src/datatypes/slices.rs:15 | the bytes of a concatenation are the concatenated bytes |
| Slices.HelloWorldBytes | 03-lang-concepts/src/datatypes/slices.rs:72-73 | the bytes of "Hello world" are those of "Hello", a space byte, then those of "world" |
| Slices.SentenceSlices | 03-lang-concepts/src/datatypes/slices.rs:72-93 | for a space-free word, a space and a rest: the first word ends at the word's length, s[0..n] and s[..n] are the word, s[n+1..len] and s[n+1..] are the rest |
| Slices.Slices | 03-lang-concepts/src/datatypes/slices.rs:72-93 | for "Hello world": 5, "Hello", "world", and first word "Hello" |
| Slices.IntSlices | 03-lang-concepts/src/datatypes/slices.rs:51-55 | [1,2,3,4,5][1..3] == [2,3] |
| SafeAbstractions.SplitAtMut | 20-unsafe_rust/src/safe_abstractions.rs:3-15 | for mid <= len, the parts have lengths mid and len - mid and hold the elements at [0, mid) and [mid, len) |
| SafeAbstractions.SplitRejoins | 20-unsafe_rust/src/safe_abstractions.rs:3-15 | the two parts concatenate to the original |
| SafeAbstractions.SplitOfJoin | 20-unsafe_rust/src/safe_abstractions.rs:3-15 | splitting a concatenation at the first part's length gives back both parts |
| SafeAbstractions.Run | 20-unsafe_rust/src/safe_abstractions.rs:17-25 | [1..6] split at 3 gives [1,2,3] and [4,5,6] |
| DefaultGenericType.AddPoints | 21-traits_advanced/src/default_generic_type.rs:31-36 | componentwise sum, with no i32 overflow |
| DefaultGenericType.AddPointsLaws | 21-traits_advanced/src/default_generic_type.rs:31-36 | point addition is commutative and has (0, 0) as identity |
| DefaultGenericType.AddMeters | 21-traits_advanced/src/default_generic_type.rs:47-52 | the millimetre result exceeds the left operand by exactly 1000 times the metres |
| DefaultGenericType.AddMetersTwice | 21-traits_advanced/src/default_generic_type.rs:47-52 | adding b then c metres equals adding b + c metres |
| DefaultGenericType.Run | 21-traits_advanced/src/default_generic_type.rs:55-68 | (1,0) + (2,3) = (3,3), and 24 mm + 2 m = 2024 mm |
| StdIter.SliceIter.Next | 08-collections/src/vectors.rs:112-117 | the next unvisited element and advance, or None at the end for good |
| StdIter.MapIter.Next | 14-iterators/src/main.rs:20-23 | the closure applied to the inner iterator's next element, or None |
| StdIter.MapSeq | 14-iterators/src/main.rs:26 | map().collect() has the input's length and element i is f of input element i |
| StdIter.Range.Next | 08-collections/src/vectors.rs:122-123 | the smallest remaining integer, and the range shrinks from the front |
| StdIter.Range.NextBack | 03-lang-concepts/src/control_flow.rs:99 | the largest remaining integer, and the range shrinks from the back |
| Iterators.PlusOne | 14-iterators/src/main.rs:20 | the closure's x + 1 fits in an i32 exactly when x is not i32::MAX, where the addition would panic |
| Iterators.IteratorAdaptors | 14-iterators/src/main.rs:16-28 | stepping map(\|x\| x + 1) with next until None yields the same list as collect, element i being v1[i] + 1; no element may be i32::MAX, and every item is an i32 |
| Iterators.MapExample | 14-iterators/src/main.rs:26-27 | [1,2,3] maps to [2,3,4] |
| Iterators.ShoesInMySize | 14-iterators/src/main.rs:36-38 | every kept shoe has the requested size |
| Iterators.ShoesAllKept | 14-iterators/src/main.rs:36-38 | each shoe of that size is kept as often as it occurs, and no other shoe is |
| Iterators.ShoesKeepOrder | 14-iterators/src/main.rs:36-38 | filtering distributes over concatenation, so relative order is kept |
| Iterators.EnvCapturingIterators | 14-iterators/src/main.rs:40-62 | the four sample shoes filtered at 10 give boot/10 and sneaker/10 |
| Vectors.Vec.constructor | 08-collections/src/vectors.rs:39 | Vec::new is empty |
| Vectors.Vec.FromSeq | 08-collections/src/vectors.rs:48 | vec![...] holds the given elements |
| Vectors.Vec.Push | 08-collections/src/vectors.rs:40-43 | appends one element at the end |
| Vectors.Vec.Index | 08-collections/src/vectors.rs:52 | an in-range index gives the element at that position |
| Vectors.Vec.Get | 08-collections/src/vectors.rs:55-59 | Some iff the index is in range, and then the same element as indexing |
| Vectors.GetAgreesWithIndex | 08-collections/src/vectors.rs:52-59 | for an in-range index, get unwraps to the indexed element |
| Vectors.UpdatingVectors | 08-collections/src/vectors.rs:36-45 | pushing 3,2,1,0 onto an empty vector gives [3,2,1,0] |
| Vectors.ReadingVectors | 08-collections/src/vectors.rs:47-67 | v[2] == 3, v.get(2) == Some(3), and v.get(5) == None |
| Vectors.ReferencingVectors | 08-collections/src/vectors.rs:78-82 | after push the first element is still 1 |
| Vectors.PrintPlusOne | 08-collections/src/vectors.rs:89-97 | visits every element in order, printing it plus one as an i32; no element may be i32::MAX, where the addition would panic |
| Vectors.AddToEach | 08-collections/src/vectors.rs:101-105 | adds the amount to every element in place, keeping the length |
| Vectors.IteratingOverVectors | 08-collections/src/vectors.rs:85-107 | [100,32,57] prints 101,33,58 and becomes [120,52,77] |
| Vectors.SafeIterations | 08-collections/src/vectors.rs:109-126 | the iterator over [1,2] yields 1, 2, then None; the range yields index 0, which selects 1 |
| HashMaps.HashMap.constructor | 08-collections/src/hashmaps.rs:35 | HashMap::new is empty |
| HashMaps.HashMap.Insert | 08-collections/src/hashmaps.rs:43-47 | binds the key to the value, overwriting, touches no other key, and returns the previous value |
| HashMaps.HashMap.EntryOrInsert | 08-collections/src/hashmaps.rs:51-58 | a present key keeps its value and the map is unchanged; an absent key gets the default |
| HashMaps.HashMap.Get | 08-collections/src/hashmaps.rs:78-83 | Some iff the key is present, with its value |
| HashMaps.ScoreOrZero | 08-collections/src/hashmaps.rs:85-94 | the stored value for a present key, and 0 for a missing one |
| HashMaps.HashmapCreation | 08-collections/src/hashmaps.rs:33-39 | Blue 10, Yellow 50 |
| HashMaps.HashmapUpdates | 08-collections/src/hashmaps.rs:41-60 | a second insert leaves Blue 25; or_insert keeps Blue 10 and adds Yellow 50 |
| HashMaps.CountWords | 08-collections/src/hashmaps.rs:64-68 | the keys are exactly the words, each mapped to its number of occurrences |
| HashMaps.WordCounter | 08-collections/src/hashmaps.rs:63-69 | the same for the whitespace-separated words of a text |
| HashMaps.SampleTextJoinsWords | 08-collections/src/hashmaps.rs:63 | the sample text is its five words joined by single spaces |
| HashMaps.SampleWordsAreWords | 08-collections/src/hashmaps.rs:63 | each sample word is non-empty and has no whitespace |
| HashMaps.SampleTextWords | 08-collections/src/hashmaps.rs:63-65 | split_whitespace of the sample text gives its five words |
| HashMaps.SampleCounts | 08-collections/src/hashmaps.rs:63-69 | any map that counts the sample words is Hello 1, world 2, you 1, wonderful 1 |
| HashMaps.WordCounterExample | 08-collections/src/hashmaps.rs:63-69 | the word counter on the sample text gives world 2 and the others 1 |
| HashMaps.HashmapValuesAccess | 08-collections/src/hashmaps.rs:72-95 | get(Blue) is Some(10); the fallback gives 10 for Blue and 0 for Brown |
| HashMaps.PositionsAreOccurrences | 08-collections/src/hashmaps.rs:137-139 | the positions list holds exactly the indices of the char, in strictly ascending order |
| HashMaps.PositionsOfAbsent | 08-collections/src/hashmaps.rs:137-139 | a char that does not occur has no positions |
| HashMaps.GroupIndices | 08-collections/src/hashmaps.rs:136-139 | the keys are exactly the chars of the string, each mapped to its ascending positions |
| HashMaps.SumIndices | 08-collections/src/hashmaps.rs:140-143 | the loop computes the sum of the list |
| HashMaps.HashmapChallenge | 08-collections/src/hashmaps.rs:135-145 | 'l' in "hello" is at [2,3], whose sum is 5 |
| ControlFlow.Classify | 03-lang-concepts/src/control_flow.rs:13-21 | the first branch whose truncating remainder is 0 is chosen |
| ControlFlow.ClassifyMeaning | 03-lang-concepts/src/control_flow.rs:13-21 | by 4 iff divisible by 4; by 3 iff not by 4 and by 3; by 2 iff n mod 4 is 2 and not by 3; otherwise odd and not by 3 |
| ControlFlow.IfStatement | 03-lang-concepts/src/control_flow.rs:3-33 | 4 < 5, 4 is reported divisible by 4, and the if-expression gives 5 |
| ControlFlow.LoopWithBreakValue | 03-lang-concepts/src/control_flow.rs:45-52 | the loop breaks with 20 |
| ControlFlow.LabelledLoops | 03-lang-concepts/src/control_flow.rs:58-78 | the end count is 2; counts 0,1,2 and remainings 10,9,10,9,10 are printed |
| ControlFlow.Countdown | 03-lang-concepts/src/control_flow.rs:82-86 | from a non-negative start, prints start down to 1 and ends at 0 |
| ControlFlow.Liftoff | 03-lang-concepts/src/control_flow.rs:82-87 | from 3 it prints 3, 2, 1 and ends at 0 |
| ControlFlow.ForIn | 03-lang-concepts/src/control_flow.rs:92-95 | visits every array element in order |
| ControlFlow.ForInReversedRange | 03-lang-concepts/src/control_flow.rs:99-101 | (lo..hi).rev() visits hi-1 down to lo |
| ControlFlow.ForLoops | 03-lang-concepts/src/control_flow.rs:90-102 | 10,20,30,40,50, then 3,2,1 |
| RustInts.RustRem | 03-lang-concepts/src/control_flow.rs:13-17 | the truncating remainder: the sign follows the dividend, magnitude below the divisor, and 0 iff divisible |
| RustInts.TruncatedRemainderBySmall | 03-lang-concepts/src/control_flow.rs:13-17 | the remainder of a non-negative dividend, or the negated remainder of a negative dividend's magnitude, is the truncating remainder |
| RustInts.RemainderOfNonNegative | 03-lang-concepts/src/control_flow.rs:13-17 | for a non-negative dividend the Euclidean remainder is the truncating one |
| RustInts.RemainderOfNegative | 03-lang-concepts/src/control_flow.rs:13-17 | for a negative dividend, minus the remainder of its magnitude is non-positive, leaves a multiple, and is 0 iff the divisor divides it |
| RustInts.RustRemNegativeOdd | 19-patterns_matching/src/match_guards.rs:9-10 | a negative odd number has remainder -1 modulo 2 |
| Recoverable.UsernameFrom | 09-error-handling/src/recoverable.rs:143-157 | an open error or a read error is returned unchanged; otherwise the trimmed contents |
| Recoverable.ReadToString | 09-error-handling/src/recoverable.rs:153 | on success appends the file's contents to the buffer; on error returns the error, the buffer being left as it was because the caller drops it on that path |
| Recoverable.MatchErrorPropagation | 09-error-handling/src/recoverable.rs:143-157 | the manual match propagation computes that result |
| Recoverable.ShorthandErrorPropagation | 09-error-handling/src/recoverable.rs:160-171 | the ? propagation computes the same result |
| Recoverable.ShorthandErrorPropagationShorter | 09-error-handling/src/recoverable.rs:174-178 | the chained ? propagation computes the same result |
| Recoverable.ShorthandErrorPropagationShortest | 09-error-handling/src/recoverable.rs:200-202 | fs::read_to_string: the open error, or the read outcome untrimmed |
| Recoverable.ShortestDiffersOnlyByTrim | 09-error-handling/src/recoverable.rs:143-202 | the shortest form fails exactly when the others do, with the same error, and on success trimming its text gives theirs |
| Recoverable.LineEnd | 09-error-handling/src/recoverable.rs:210 | the index of the first newline, or the length |
| Recoverable.FirstLine | 09-error-handling/src/recoverable.rs:210 | None iff the text is empty; otherwise a newline-free prefix, which FirstLineOf and FirstLineOfSingleLine pin down to the line itself |
| Recoverable.LastCharOfFirstLine | 09-error-handling/src/recoverable.rs:208-211 | None for empty text or an empty first line, otherwise the first line's last char |
| Recoverable.FirstLineOf | 09-error-handling/src/recoverable.rs:210 | a line followed by "\n" or "\r\n" is the first line, whatever follows |
| Recoverable.FirstLineOfSingleLine | 09-error-handling/src/recoverable.rs:210 | a non-empty text without a newline is its own first line, a final "\r" included |
| Recoverable.LastCharOfSingleLine | 09-error-handling/src/recoverable.rs:208-211 | for a text without a newline: None when it is empty, otherwise its last char |
| Recoverable.OnlyFirstLineMatters | 09-error-handling/src/recoverable.rs:208-211 | text after the first "\n" or "\r\n" does not change the result |
| Recoverable.LineEndIsFirstNewline | 09-error-handling/src/recoverable.rs:210 | any index before which there is no newline and at which one stands is the line end |
| Recoverable.LastCharOfNonEmptyFirstLine | 09-error-handling/src/recoverable.rs:208-211 | "Hi!\nBye" gives '!' |
| Recoverable.LastCharOfEmptyFirstLine | 09-error-handling/src/recoverable.rs:208-211 | "\nHi!" gives None |
| Recoverable.LastCharBeforeCarriageReturn | 09-error-handling/src/recoverable.rs:208-211 | "Hi\r\nthere" gives 'i', since lines() drops the "\r" |
| Text.Trim | 09-error-handling/src/recoverable.rs:154 | a contiguous slice of the input, and neither end of a non-empty result is whitespace |
| Text.SplitWhitespace | 08-collections/src/hashmaps.rs:65 | every piece is non-empty and has no whitespace; SplitWhitespaceLayout shows nothing but whitespace is dropped |
| Text.WhitespaceGaps | 08-collections/src/hashmaps.rs:65 | one whitespace gap more than there are words |
| Text.SplitWhitespaceLayout | 08-collections/src/hashmaps.rs:65 | the text is its words laid out between whitespace-only gaps, with a non-empty gap between each two words |
| Text.GapsAreBlank | 08-collections/src/hashmaps.rs:65 | every gap split_whitespace drops is whitespace only |
| Text.InnerGapsAreNonEmpty | 08-collections/src/hashmaps.rs:65 | a gap between two words is never empty |
| Text.InterleaveGapsAndWords | 08-collections/src/hashmaps.rs:65 | the gaps and the words, interleaved, give back the text |
| Text.SplitJoinRoundTrip | 08-collections/src/hashmaps.rs:65 | splitting words joined by single spaces gives back the words |
| Text.DecimalRoundTrip | 19-patterns_matching/src/if_let.rs:12 | the decimal digits of n read back as n |
| EnumMatch.ValueInCents | 06-option_pattern-matching/src/enum_match.rs:16-38 | one of 1, 5, 10, 25, and 25 exactly for a quarter |
| EnumMatch.ValueDeterminesKind | 06-option_pattern-matching/src/enum_match.rs:16-38 | coins of equal value are the same coin or both quarters |
| EnumMatch.CoinsValues | 06-option_pattern-matching/src/enum_match.rs:18-37 | penny 1, nickel 5, dime 10, a quarter of either state 25 |
| OptionTMatch.PlusOne | 06-option_pattern-matching/src/option_t_match.rs:5-12 | None gives None, and Some(n) gives Some(n + 1) |
| OptionTMatch.PlusOneInjective | 06-option_pattern-matching/src/option_t_match.rs:5-12 | different inputs give different results |
| OptionTMatch.EnumOptionMatches | 06-option_pattern-matching/src/option_t_match.rs:14-21 | Some(5) gives Some(6), and None gives None |
| OptionTMatch.CatchAllMatch | 06-option_pattern-matching/src/option_t_match.rs:41-45 | 3 and 7 pick their arms; every other roll moves on with that value |
| OptionTMatch.PlaceholderMatch | 06-option_pattern-matching/src/option_t_match.rs:50-54 | 3 and 7 pick their arms; every other roll rolls again |
| OptionTMatch.UnitMatch | 06-option_pattern-matching/src/option_t_match.rs:58-62 | 3 and 7 pick their arms; every other roll does nothing |
| OptionTMatch.DiceMatchesAgree | 06-option_pattern-matching/src/option_t_match.rs:41-62 | the three matches reach their catch-all on the same rolls and agree elsewhere |
| OptionTMatch.EnumMatchCatchAll | 06-option_pattern-matching/src/option_t_match.rs:24-63 | a roll of 9 moves on with 9, rolls again, or does nothing |
| EnumBasics.UnwrapOr | 06-option_pattern-matching/src/enum_basics.rs:44-49 | the value of Some, or the default for None |
| EnumBasics.UnwrapOrIsStd | 06-option_pattern-matching/src/enum_basics.rs:51-59 | the local unwrap_or agrees with Option::unwrap_or |
| EnumBasics.OptionEnumBasics | 06-option_pattern-matching/src/enum_basics.rs:22-59 | every form gives 5, 'e' and -1 for the three options |
| IfLetMatch.ConfigMaxByMatch | 06-option_pattern-matching/src/if_let_match.rs:24-27 | the match reports a maximum exactly when one is configured |
| IfLetMatch.ConfigMaxByIfLet | 06-option_pattern-matching/src/if_let_match.rs:43-45 | if let reports only the configured maximum |
| IfLetMatch.ConfigMaxFormsAgree | 06-option_pattern-matching/src/if_let_match.rs:24-45 | both forms report the configured maximum, and nothing when absent |
| IfLetMatch.CountByIfLet | 06-option_pattern-matching/src/if_let_match.rs:49-58 | a quarter reports its state and keeps the count; any other coin adds 1 |
| IfLetMatch.CountByMatch | 06-option_pattern-matching/src/if_let_match.rs:61-69 | the same through match |
| IfLetMatch.CountNickel | 06-option_pattern-matching/src/if_let_match.rs:49-69 | a nickel counts 1 both ways |
| IfLetMatch.PrintRangeMax | 06-option_pattern-matching/src/if_let_match.rs:78-82 | reports a value exactly for a Range |
| IfLetMatch.GetStart | 06-option_pattern-matching/src/if_let_match.rs:88-93 | a Point's only field |
| IfLetMatch.LocationFromFields | 06-option_pattern-matching/src/if_let_match.rs:78-93 | a Point is rebuilt from get_start; a Range from get_start and the reported second field |
| IfLetMatch.LocationSamples | 06-option_pattern-matching/src/if_let_match.rs:84-98 | Point(4): nothing reported, start 4; Range(6,32): 32 reported, start 6 |
| MatchGuards.MatchGuard | 19-patterns_matching/src/match_guards.rs:7-13 | None does nothing; Some(x) is even iff the remainder of x by 2 is 0, and odd otherwise |
| MatchGuards.NegativeOddIsOdd | 19-patterns_matching/src/match_guards.rs:9-10 | a negative odd x has remainder -1 and takes the odd arm |
| MatchGuards.MatchGuardRun | 19-patterns_matching/src/match_guards.rs:7-13 | 4 is even, 3 is odd, None does nothing |
| MatchGuards.AnotherMatchGuard | 19-patterns_matching/src/match_guards.rs:15-29 | Some(50) takes the first arm; other Some(n) with n == y match; everything else defaults with x unchanged |
| MatchGuards.FirstArmWins | 19-patterns_matching/src/match_guards.rs:23-24 | Some(50) with y == 50 still takes "Got 50" |
| MatchGuards.AnotherMatchGuardSample | 19-patterns_matching/src/match_guards.rs:15-29 | Some(5) with y 10 defaults; Some(10) with y 10 matches |
| AtBindings.MatchId | 19-patterns_matching/src/at_bindings.rs:9-26 | 3..=7 binds the id, 10..=12 takes the second arm, anything else the third with the id |
| AtBindings.Run | 19-patterns_matching/src/at_bindings.rs:9-26 | id 5 takes the first arm, bound to 5 |
| IfLet.ParseDigits | 19-patterns_matching/src/if_let.rs:12 | success only on all-digit text, with its decimal value, and always on all-digit text of value at most 255 |
| IfLet.ParseU8 | 19-patterns_matching/src/if_let.rs:12 | Empty iff the text is empty; Ok iff what follows one optional "+" is a non-empty run of digits of value at most 255, and then that value |
| IfLet.ParsePrintedU8 | 19-patterns_matching/src/if_let.rs:12 | every u8 printed in decimal parses back to itself |
| IfLet.BackgroundColor | 19-patterns_matching/src/if_let.rs:14-26 | a favourite colour wins, then Tuesday's green, then purple above 30 and orange otherwise, then blue |
| IfLet.FavoriteColorDecides | 19-patterns_matching/src/if_let.rs:14-15 | with a favourite colour, the day and the age do not matter |
| IfLet.Run | 19-patterns_matching/src/if_let.rs:9-27 | "34" parses to 34, and the background is purple |
| FuncPointers.AddOne | 23-funcs_closures_advanced/src/func_pointers.rs:7-9 | x + 1 |
| FuncPointers.DoTwice | 23-funcs_closures_advanced/src/func_pointers.rs:11-13 | twice f(arg) |
| FuncPointers.DoTwiceAddOne | 23-funcs_closures_advanced/src/func_pointers.rs:11-13 | do_twice(add_one, a) is 2a + 2, hence even |
| FuncPointers.FuncPtr | 23-funcs_closures_advanced/src/func_pointers.rs:15-18 | do_twice(add_one, 5) == 12 |
| FuncPointers.ToString | 23-funcs_closures_advanced/src/func_pointers.rs:27-34 | a "-" exactly for a negative number, then decimal digits without leading zeros that read back as its magnitude |
| FuncPointers.ClosureOrFnPtr | 23-funcs_closures_advanced/src/func_pointers.rs:23-36 | the closure and the function path give the same list, as long as the input |
| FuncPointers.ClosureOrFnPtrSample | 23-funcs_closures_advanced/src/func_pointers.rs:23-36 | [1,2,3] gives ["1","2","3"] |
| FuncPointers.ValueStatuses | 23-funcs_closures_advanced/src/func_pointers.rs:51 | n statuses, the i-th being Value(i) |
| FuncPointers.EnumInitFnPtr | 23-funcs_closures_advanced/src/func_pointers.rs:47-57 | 12 statuses, the first Value(0), none Stop |
| GenericsStructs.MixedPoint.Mixup | 10-generics/src/structs.rs:31-38 | x from self and y from the other point |
| GenericsStructs.MixupSelf | 10-generics/src/structs.rs:31-38 | mixing a point with itself gives it back |
| GenericsStructs.MixupAbsorbs | 10-generics/src/structs.rs:31-38 | in a chain of mixups, only the first x and the last y survive |
| GenericsStructs.MixupSample | 10-generics/src/structs.rs:62-64 | (1.3, 3) mixed with ("World", 'c') gives (1.3, 'c') |
| Structs.BuildUser | 03-lang-concepts/src/datatypes/structs.rs:24-32 | email and username from the parameters in order, active, one sign-in |
| Structs.WithUsername | 03-lang-concepts/src/datatypes/structs.rs:48-51 | the new username, every other field copied |
| Structs.WithUsernameUndone | 03-lang-concepts/src/datatypes/structs.rs:48-51 | restoring the old username gives back the original user |
| Structs.StructType | 03-lang-concepts/src/datatypes/structs.rs:34-65 | user1's email is "someusername123" as the call passes it; user2 copies all but the username; the assignment changes only the email |
| Ownership.AddSuffix | 04-ownership/src/box_moving.rs:2-5 | the name followed by " Jr.", four chars longer |
| Ownership.OwnershipTransferMoving | 04-ownership/src/box_moving.rs:12-20 | "Ferris" gives "Ferris Jr." |
| Ownership.OwnershipTransferCloning | 04-ownership/src/box_cloning.rs:10-16 | the clone is extended to "Ferris Jr." while the original stays "Ferris" |
| Content.Tweet.AuthoredBy | 11-traits/src/content/tweets.rs:15-17 | "@" followed by the username |
| Content.Tweet.Summarize | 11-traits/src/content/tweets.rs:11-13 | authored_by, then ": ", then the content |
| Content.TweetSummary | 11-traits/src/content/tweets.rs:11-17 | the summary starts with '@' and ignores the reply and retweet flags |
| Content.NewsArticle.AuthoredBy | 11-traits/src/content/news_articles.rs:20-22 | the author unchanged |
| Content.NewsArticle.Summarize | 11-traits/src/content/news_articles.rs:11-18 | headline, ", by ", author, " (", location, ")" |
| Content.NewsArticleSummary | 11-traits/src/content/news_articles.rs:11-18 | the summary ends with ')' and does not depend on the content |

## Left out

- Console output: every `println!` is left out. Where a printed value is the
  point of a function, it is returned as an out-parameter.
- File I/O in `09-error-handling/src/recoverable.rs` (`File::open`,
  `read_to_string`, `fs::read_to_string`, file creation): an I/O outcome is a
  `Result` parameter. IP-address parsing and the panicking `unwrap`/`expect`
  demos are not modelled.
- The `From` conversion the `?` operator applies to errors: every error type
  here is `io::Error`, so the model propagates errors unchanged.
- Threads and sleeps in `13-closures/src/lib.rs`, and the closure demos there
  that only print.
- Ownership, moves and borrows: Dafny has no counterpart, so only the values
  computed are modelled. Matching on `&option` cannot change the option,
  because the model works on values.
- `Box<dyn State>` dynamic dispatch: the three state structs become the
  constructors of one datatype.
- HashMap iteration order, which is arbitrary: `iterate_over_hashmap` and
  `hashmap_and_ownership` only print or move. Hash maps are Dafny `map`s.
- A write through the `&mut V` that `entry().or_insert()` returns: it is
  modelled as an `Insert` under the same key, which gives the same map.
- The pointer arithmetic and `unsafe` code of `split_at_mut`: only the split
  values are modelled, and the two halves are values rather than two mutable
  views of one buffer.
- Floating point: `MixupSample` uses a Dafny `real` for `1.3`, copied and
  never computed with.
- Tuple structs, unit structs and `Point::print` in the generics chapter, and
  the `Status::Stop` print: nothing is computed there.
- `Largest.Largest`: returns the index of the largest element rather than a
  reference to it. The element is `list[k]`.
- `Vectors.Vec.Index`: an out-of-range index, which panics, is excluded by
  precondition.
- `ControlFlow.Countdown`: generalises the source's fixed start of 3 to any
  non-negative start. A negative start would count down until `i32` overflow.
- `IfLet.ParseU8`: models `str::parse::<u8>`, an optional "+" followed by
  decimal digits. A "-" sign is reported as an invalid digit, which is also
  what the standard library reports for an unsigned type.
- `Rectangles.Rectangle.Area` and the `area_from_*` functions: a `u32`
  product that could overflow is excluded by precondition (`ProductFits`),
  as a debug build would panic there.
- Text handling: `trim`, `split_whitespace` and `lines` are written out from
  their documented behaviour, with Unicode White_Space as the whitespace set.
  There is no UTF-8 byte-level model of strings.
