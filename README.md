# Named stacks and queues over a singly linked list, and the strength exercise

This project models, in Dafny, the two teaching programs of the repository.

**program2: `SimpleList<T>` and its `Stack<T>` and `Queue<T>` variants.** A `SimpleList` is a
singly linked list with a fixed name. It owns a chain of nodes starting at `head_`. `tail_`
points at the last node so that appending is O(1), and `size_` counts the nodes. It has three
primitives:
- `insert_front`;
- `insert_back`;
- `remove_front`, which throws an underflow error on an empty list.

`Stack::push` inserts at the front and `Queue::push` at the back. Both `pop`s remove from the
front, so a Stack is last-in-first-out and a Queue first-in-first-out. `findByName` scans a
list of lists for the first one with a given name.

In the model (`simple_list.dfy`, module `SimpleLists`) the list is the class
`SimpleList<T>`. It has the real fields `head`, `tail` and `size` over `Node<T>` objects, and a
`const name`. Its ghost fields give the abstract view:
- `Contents`, the elements front to back;
- `Nodes`, the chain;
- `Repr`, its footprint.

`Valid()` is the list invariant:
- `size == |Contents|`;
- head and tail are null exactly when the list is empty;
- the chain from `head` visits every node once, in order, and ends at `tail`, whose `next` is
  null.

The C++ abstract base with two subclasses becomes a `const variant: Variant` (`Stack` or
`Queue`), on which `Push` dispatches. The underflow exception becomes the result
`Underflow` of `PopResult<T>`. `getName` is the read of the `const` field `name`, so no
operation can change the name.

What push and pop do to the contents is defined once, on sequences, in `list_spec.dfy`
(module `ListSpec`), and the methods are proved against it. The order properties are lemmas
there:
- N pushes then N pops return the values reversed for a Stack and in order for a Queue;
- after any run of commands, the size is the pushes minus the pops that did not underflow.

**program1: the strength exercise** (`strength.dfy`, module `Strength`). Word pairs
`(type, name)` become objects in input order. The type word `"foo"` gives a `Foo`, `"bar"` a
`Bar`, and anything else a plain `Foobar`. The objects are numbered from the back starting at
1. The report is written from the last object to the first, one line each:
`name + " strength: " + strength`. A plain object's strength is its position, a `Foo`'s is
3 × position and a `Bar`'s is position + 15. The class hierarchy becomes one class `Foobar`
with a `const variant`. The stream input becomes the sequence of words already read, and the
output file becomes the sequence of lines. The integer is rendered in decimal explicitly.

## Model

| member | source | states |
|---|---|---|
| `ListSpec.Pushed` | program2/main.cpp:102-112 | a push adds exactly one element: a Stack's push puts it at the front over the old contents, a Queue's at the back after them |
| `ListSpec.PopFront` | program2/main.cpp:54-64 | a pop underflows exactly when the list is empty (and the contents stay empty); otherwise the popped value put back in front of the remaining contents gives the old contents |
| `ListSpec.StackPushAll` | program2/main.cpp:102 | pushing values onto a Stack leaves them newest first above the old contents (reverse of push order) |
| `ListSpec.QueuePushAll` | program2/main.cpp:112 | pushing values onto a Queue leaves them behind the old contents in push order |
| `ListSpec.PopAllInOrder` | program2/main.cpp:103-113 | popping a list until it is empty yields its elements front to back, one successful pop per element |
| `ListSpec.PushThenPopOrder` | program2/main.cpp:102-113 | N pushes onto an empty list then N pops: the k-th pop of a Stack returns the k-th value from the end of the pushes, that of a Queue the k-th value pushed |
| `ListSpec.SizeAccounting` | program2/main.cpp:24-64 | after any sequence of pushes and pops, the size is the initial size plus the pushes minus the pops that did not underflow |
| `SimpleLists.SimpleList.constructor` | program2/main.cpp:67-68 | a new list is empty (size 0, null head and tail) and carries the given name, which is `const` from then on |
| `SimpleLists.SimpleList.Size` | program2/main.cpp:79 | the size is the number of elements held |
| `SimpleLists.SimpleList.IsEmpty` | program2/main.cpp:78 | empty is true exactly when the contents are empty, i.e. exactly when the size is 0 |
| `SimpleLists.SimpleList.InsertFront` | program2/main.cpp:24-28 | contents become `[v] + old`, size grows by 1, the new head holds `v` and links to the old head; the first node of an empty list also becomes the tail, otherwise the tail is kept; the invariant is kept |
| `SimpleLists.SimpleList.InsertBack` | program2/main.cpp:35-43 | contents become `old + [v]`, size grows by 1, the new tail holds `v` and ends the chain; into an empty list the node is both head and tail, otherwise the head is kept; the invariant is kept |
| `SimpleLists.SimpleList.RemoveFront` | program2/main.cpp:54-64 | on an empty list: Underflow and nothing changes; otherwise returns the old first element, leaves `old[1..]`, head advances to the old head's successor, size drops by 1, and the tail is null exactly when the list became empty |
| `SimpleLists.SimpleList.Clear` | program2/main.cpp:81-90 | walks the chain node by node, then leaves size 0 with null head and tail and empty contents; on an already empty list contents, head and tail are as they were (a no-op) |
| `SimpleLists.SimpleList.Push` | program2/main.cpp:102-112 | contents become those `Pushed` gives for the list's variant (front for Stack, back for Queue); the invariant is kept |
| `SimpleLists.SimpleList.Pop` | program2/main.cpp:103-113 | both variants pop from the front, with the result and contents `PopFront` gives, Underflow on an empty list |
| `SimpleLists.FindByName` | program2/main.cpp:116-123 | null exactly when no list has the target name; otherwise a list of the sequence that has the target name and before which no list has it (the first match) |
| `SimpleLists.PushAllThenPopAll` | program2/main.cpp:102-113 | on the class itself: pushing `vs` onto an empty Stack then popping as often returns `Reverse(vs)`, on a Queue returns `vs`, and the list ends empty |
| `Strength.StrengthOf` | program1/main.cpp:24-53 | the strength of a plain object is its position, of a Foo 3 × position, of a Bar position + 15 (`Foobar.GetStrength` dispatches to it on the object's kind) |
| `Strength.Foobar.constructor` | program1/main.cpp:11-14 | a new object has the given name and position 0 |
| `Strength.Foobar.SetPosition` | program1/main.cpp:16-18 | the position becomes the given value; name and kind are `const` and cannot change |
| `Strength.VariantOf` | program1/main.cpp:64-70 | the kind is Foo exactly for the word "foo", Bar exactly for "bar", and the base class for every other word |
| `Strength.ReadInputFile` | program1/main.cpp:57-74 | one fresh, distinct object per complete (type, name) pair, in input order, with that name, the kind `VariantOf` gives for the type word, and position 0; a trailing unpaired word is dropped |
| `Strength.AssignPositions` | program1/main.cpp:77-81 | the object at index i gets position n − i: the last gets 1, the first n; all positions are distinct and lie in 1..n |
| `Strength.WriteOutputFile` | program1/main.cpp:84-90 | one line per object, from the last object to the first, each the name, " strength: " and the object's strength |
| `Strength.Run` | program1/main.cpp:108-111 | end to end: the k-th output line is for the k-th pair from the end of the input, with that pair's name and the strength its kind gives at position k + 1 |
| `Strength.IntDecimalRoundTrip` | program1/main.cpp:88 | the decimal rendering of a strength reads back to the same integer, negative values included |
| `Strength.FormatLineReadsBack` | program1/main.cpp:88 | an output line starts with the name, then " strength: ", and the rest reads back to the strength |

## Left out

- The rvalue overloads `insert_front(T&&)` and `insert_back(T&&)` (program2/main.cpp:29-33, 44-52): they behave like the copy versions, and Dafny has no move semantics.
- Memory release: `delete` of a removed node, the destructor that calls `clear`, and `cleanUp` in program1. Dafny has no manual freeing. `RemoveFront` drops the node from the footprint `Repr`, and `Clear` walks the chain and resets the list.
- The deleted copy and move constructors and assignments of `SimpleList`: they are a C++ language policy with no behaviour.
- Virtual dispatch: the abstract base with `Stack` and `Queue` subclasses is one class with a constant variant. Likewise `Foobar`, `Foo` and `Bar` are one class with a constant kind.
- The `std::list` of list pointers given to `findByName` is a sequence of non-null references.
- Files and the console: opening files, the `cin` prompts, and splitting the input text into words. The model starts from the words already read and ends with the lines to be written.
- `Strength.StrengthOf`: does not model the 32-bit overflow of `getPosition() * 3` or `getPosition() + 15`, because integers are unbounded here. Likewise `Strength.AssignPositions` does not model the overflow of `foobars.size() - 1` or `pos`, for more than 2^31 − 1 objects.
- `Strength.AssignPositions`: requires the objects to be distinct, as `readInputFile` creates them. What a vector holding the same pointer twice would end with is not modelled.
- `SimpleLists.SimpleList.Size`: the size is an unbounded natural, not a `std::size_t` that could wrap.
