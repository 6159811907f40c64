# vulkan_api_checker, modelled in Dafny

The checker reads a trace of Vulkan API calls, one call or field per line, as
the API dump layer prints it. Each line goes through three steps:

1. Four fixed regular expressions pull facts out of the line: the called
   function (`^vk([^(\s]+)\(`), an old layout, a new layout and an image
   pointer (`oldLayout:[^=]+=\s(\w+)` and the two like it).
2. A function name that has an entry in the compiled-in rule table gets a
   verdict, `layout OK!` or `Layout wrong!`, from `check_layout`.
3. A three-state transition accumulator (`Empty`, `Old(old)`,
   `Both(old, new)`) collects an old layout, then a new layout, then an image
   pointer. It then records `pointer -> new layout` in the image-layout map.

The model is split into one module per component:

- `wrappers.dfy`: `Option` and `Result`, with Rust's `filter`, `ok_or` and `?`
  (Dafny's `:-`).
- `patterns.dfy`: the four regexes, written as string matchers. The field
  patterns are specified by a predicate, `FieldMatch`, that says what a match
  at a given position looks like. The matcher is proved to return the
  capture of the leftmost match, and `None` exactly when there is no match.
- `validator.dfy`: `Layout`, `LayoutErr`, `load_rules` and `check_layout`.
- `accumulator.dfy`: the transition states and one accumulator step, `Advance`.
- `driver.dfy`: the per-line body of `main` as a function, `Step`, and its
  fold over a finite stream, `Trace`. It also holds the class `Checker`: its
  fields are the locals that `main` updates in place, and `ProcessLine` and
  `ProcessAll` are proved equal to `Step` and `Trace`.

Behaviour kept as the code has it:

- A rule set that is `None` fails its check; it does not mean "no constraint".
  The table's only rule, `CmdCopyBufferToImage`, has `src = None`. So that
  call can never pass. `NoRulePasses` and `CheckStream` prove this.
- Validation always runs against `current_layout`. That variable is set to
  `""` at src/main.rs:75 and never assigned again. In the model it is a
  constant field that only the constructor sets.
- The accumulator's resets are asymmetric. A miss in `Old` drops the old
  layout. A miss in `Both` keeps the pair for as many lines as it takes.
- A pending `Both` pair looks only for an image pointer. Later old-layout and
  new-layout lines are ignored, and the pending new layout goes to the next
  image pointer.

The source as written does not compile, in two places:

- `images` is used at src/main.rs:117 but never declared. The model follows
  the evident intent: a field of type `ImageLayout` (src/main.rs:26) that
  starts empty.
- `search` (src/main.rs:60-66) is syntactically incomplete, and nothing calls
  it.

## Model

| member | source | states |
|---|---|---|
| `Patterns.RunEnd` | src/main.rs:70-73 | a greedy character-class run ends at the first character outside the class, or at the end of the line |
| `Patterns.FunctionName` | src/main.rs:70 | a captured name is non-empty and has no `(` and no white space; the line starts with `vk`, the name and `(` |
| `Patterns.FunctionNameComplete` | src/main.rs:83-86 | every line of the form `vk` + name + `(` + anything yields exactly that name; with the contract above, a name is found iff the anchored pattern matches |
| `Patterns.FieldAtSound` | src/main.rs:71-73 | a capture at a fixed start is a match of `label[^=]+=\s(\w+)`: label, non-empty gap free of `=`, `=`, one white space, then a maximal word run |
| `Patterns.FieldAtComplete` | src/main.rs:71-73 | every match at a start position is what the matcher captures there |
| `Patterns.FieldFrom` | src/main.rs:71-73 | the search returns the leftmost start position with a match, and no match at all when there is none |
| `Patterns.FieldAt` | src/main.rs:71-73 | a capture at a fixed start position begins with the label there and is a non-empty word run; `FieldAtSound` and `FieldAtComplete` make it exactly the match at that position |
| `Patterns.FieldValue` | src/main.rs:71-73 | the capture of the unanchored search is a non-empty word run captured by some match of the pattern; `FieldValueSound`, `FieldValueNone` and `FieldValueComplete` make it exactly the leftmost match |
| `Patterns.OldLayout` | src/main.rs:97-99 | the `old_layout` capture of `oldLayout:[^=]+=\s(\w+)` is a word run the pattern captures in the line |
| `Patterns.NewLayout` | src/main.rs:105-107 | the `new_layout` capture of `newLayout:[^=]+=\s(\w+)` is a word run the pattern captures in the line |
| `Patterns.ImagePtr` | src/main.rs:113-115 | the `img_ptr` capture of `image:[^=]+=\s(\w+)` is a word run the pattern captures in the line |
| `Patterns.FieldValueSound` | src/main.rs:71-73 | for each of the three field patterns (captured at src/main.rs:97-99, 105-107, 113-115): a capture is a non-empty word run, some match captures it, and no match starts further left |
| `Patterns.FieldValueNone` | src/main.rs:71-73 | for each field pattern: no capture means the pattern matches nowhere in the line |
| `Patterns.FieldValueComplete` | src/main.rs:71-73 | for each field pattern: the leftmost match is the capture |
| `Patterns.FieldValueOfLine` | src/main.rs:71-73 | a line `label gap = value rest`, in the dump's format, yields `value` |
| `Validator.LoadRules` | src/main.rs:37-42 | the table has the single key `CmdCopyBufferToImage`, whose rule has no source set and the destination set {GENERAL, TRANSFER_DST_OPTIMAL, SHARED_PRESENT_KHR}; `NoRulePasses` states what that means for validation |
| `Validator.CheckLayout` | src/main.rs:44-58 | `Ok` iff both sets are configured and contain the layout; `Err(Src)` iff the source set is missing or lacks it, whatever `dst` holds; `Err(Dst)` only after the source check passed |
| `Validator.UnconfiguredSrcNeverPasses` | src/main.rs:47-51 | a rule whose `src` is `None` fails with `Src` for every layout |
| `Validator.NoRulePasses` | src/main.rs:37-42 | the table has the single key `CmdCopyBufferToImage`, and every rule in it yields `Err(Src)` for every layout |
| `Accumulator.Advance` | src/main.rs:95-124 | `Empty`: an old layout gives `Old`, else `Empty`; `Old(ol)`: a new layout gives `Both(ol, nl)`, else `Empty`; `Both(t)`: a pointer `p` gives `Empty` and the map with `p -> t.new_layout` and all other keys untouched, else nothing changes; the map changes in no other case |
| `Accumulator.AdvanceKeepsWords` | src/main.rs:95-121 | every layout and pointer the accumulator or the map holds stays a non-empty word run |
| `Driver.Validate` | src/main.rs:87-93 | a verdict iff the name has a rule; `layout OK!` iff that rule's check passes |
| `Driver.Step` | src/main.rs:82-127 | a read error changes nothing and gives no verdict; a verdict iff the line names a function in the table, `layout OK!` iff its check passes; only a named function moves `last_fn`; the accumulator and map advance as `Advance` says, whatever validation did |
| `Driver.Trace` | src/main.rs:80-129 | the `for line in buf.lines()` loop over a finite stream: an empty stream changes nothing, and there is at most one verdict per line; `TraceSnoc`, `TraceAppend` and the lemmas below state its behaviour, and `Checker.ProcessAll` is proved equal to it |
| `Driver.TraceVerdictsAllWrong` | src/main.rs:83-93 | with the compiled-in table, a stream yields one verdict per `vkCmdCopyBufferToImage(` line, and every verdict is `Layout wrong!` |
| `Driver.CopyCallIsWrong` | src/main.rs:86-92 | a `vkCmdCopyBufferToImage(` line is reported as `Layout wrong!` |
| `Driver.TraceKeepsImages` | src/main.rs:112-121 | over any stream, no image pointer is ever removed from the map |
| `Driver.TraceKeepsWords` | src/main.rs:95-124 | from a state holding only word runs, such as `Start`, the map and the accumulator hold only non-empty word runs over any stream |
| `Driver.BothSurvivesNoise` | src/main.rs:112-121 | from `Both`, any number of lines without an image pointer leave the state and the map unchanged |
| `Driver.Commit` | src/main.rs:95-121 | from `Empty`, old-layout, new-layout and image lines in a row commit `pointer -> new layout` and end in `Empty` |
| `Driver.OldMissResets` | src/main.rs:104-111 | from `Empty`, an old layout followed by a line without a new layout is discarded: `Empty`, map unchanged |
| `Driver.CommitAfterNoise` | src/main.rs:112-121 | from `Empty`, lines without an image pointer between the layout pair and the pointer do not stop the commit |
| `Driver.CommitExample` | src/main.rs:96-118 | the dump lines `oldLayout: VkImageLayout = VK_IMAGE_LAYOUT_UNDEFINED (0)`, `newLayout: VkImageLayout = VK_IMAGE_LAYOUT_GENERAL (1)`, `image: VkImage = 0x1234` record `0x1234 -> VK_IMAGE_LAYOUT_GENERAL` |
| `Driver.Checker.constructor` | src/main.rs:69-76 | the rule table is loaded, `last_fn` and `current_layout` are `""`, the accumulator is `Empty` and the image map is empty |
| `Driver.Checker.ProcessLine` | src/main.rs:81-128 | updating the fields in place has the same effect and verdict as `Step` |
| `Driver.Checker.ProcessAll` | src/main.rs:78-130 | the loop over a finite stream ends in the state and verdicts of `Trace` |
| `Driver.CheckStream` | src/main.rs:68-131 | `main` over a whole stream from the initial state: its verdicts and image map are those of `Trace` with the compiled-in table and `current_layout = ""`; hence one `Layout wrong!` per `vkCmdCopyBufferToImage(` line and nothing else, and only word-run pointers and layouts in the map |

## Left out

- Reading standard input, `lock()`, the outer endless `loop` and the printing
  (src/main.rs:77-80, 90-91, 127) are left out. The stream is a finite
  sequence of `LineRead` values, verdicts are returned values, and a read
  error is a `ReadError` whose detail is not kept. Reaching the end of the
  stream is the end of the sequence.
- The `.expect` calls that build the regexes (src/main.rs:70-73) are left
  out. They fail only for a malformed pattern, and the four patterns are fixed.
- `search` and the `Target` trait it uses (src/main.rs:60-66) are left out:
  the code is incomplete and unused.
- `AssociatedImage` (src/main.rs:29) is left out: it is declared and never used.
- The commented-out debug print at src/main.rs:122 is left out.
- Patterns.IsWordChar: `\w` is approximated as an ASCII letter, digit or `_`.
  The regex crate's Unicode word class also admits non-ASCII word characters
  (letters, marks, digits, connector punctuation, join controls). A value with such a character is cut short at it. A value that
  starts with one is not captured at all: the model finds no match there.
  It then takes a later occurrence of the label, or returns `None`, where
  the program captures the value. In the `Old` state, the model then resets
  to `Empty` where the program moves to `Both`.
- Patterns.IsSpace: `\s` is approximated as ASCII white space (space, and tab
  through carriage return). Unicode white space outside ASCII is not matched.
  In a field pattern, a non-ASCII space after the `=` gives no match in the
  model, where the program matches. In `[^(\s]`, the model accepts a
  non-ASCII space, such as U+00A0, inside a function name, where
  `^vk([^(\s]+)\(` rejects the line.
- General regex semantics are not modelled, only the four fixed patterns.
- `HashMap` and `HashSet` are modelled as Dafny `map` and `set`. Iteration
  order and hashing play no part in the code.
- Per-image validation (the TODO at src/main.rs:45-46) is not modelled. The
  code validates against the never-updated `current_layout`, and so does the
  model.
