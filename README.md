# PerfMark core: the Mark record and the Generator epoch

This project models two pieces of the PerfMark tracing library in Dafny and proves
properties about them.

- **`Mark`** (`marks.dfy`, module `Marks`). This is the immutable event record. Its
  constructor rejects a null operation and `Operation.NONE`. Its two `switch` statements and
  its final if/else-if chain decide which caller values a record keeps and which slots hold the sentinels instead
  (`Marker.NONE`, `""`, `Long.MIN_VALUE`, `0`). The record is a `datatype`, and
  `Mark.create` is the function `Create`, which returns a `Result`. `Create` gives either
  the record or the exception the constructor throws. The Java getters are the
  datatype's fields.
- **`Generator`** (`generators.dfy`, module `Generators`). This is the generation epoch.
  It defines the bit layout (`GEN_OFFSET` = 8 reserved low bits), the `FAILURE` sentinel,
  and the rule that an odd generation id means enabled. The Java class is abstract and
  `@NotThreadSafe`. Here it is a concrete sequential class with one `long` field.
- `java_base.dfy` (module `JavaBase`) holds the Java semantics the two rely on:
  - `int` and `long` ranges;
  - two's-complement wrap-around;
  - `<<`, where the shift distance is masked, and `>>`, which shifts arithmetically;
  - `null`, modelled as `Nullable`;
  - the thrown exceptions.

`Marker` is opaque in this model. Only its equality and the distinguished `Marker.NONE`
value (`MarkerNone`) are used. The field-presence table is also stated independently of
the switches, from the kinds' names:
- a name ending in `_M`/`_TM` carries a marker;
- a name ending in `_T`/`_TM` carries a tag;
- names starting with `LINK` are links;
- names starting with `TASK_`/`EVENT` are tasks and events.

The rule lemmas prove that `Create` follows that table.

Three behaviours of the code are easy to misread:
- `equals` and `hashCode` ignore the generation, so two records that differ only in
  generation are equal.
- A generation value reads as enabled when bit 8 is set, that is, when `value >> 8` is
  odd. So 258 (id 1) is enabled.
- The constructor checks only the operation for null. It does not check the task name
  or the marker.

## Model

| member | source | states |
|---|---|---|
| `Marks.Create` | impl/src/main/java/io/perfmark/impl/Mark.java:39-133 | creation succeeds exactly for a non-null operation other than NONE; null throws NullPointerException("operation is null"); NONE throws IllegalArgumentException("bad operation"); a created record carries the given operation and generation |
| `Marks.CreateWellFormed` | impl/src/main/java/io/perfmark/impl/Mark.java:62-131 | every created record follows the presence table, which is stated from the kinds' names: Marker.NONE where the name has no marker suffix; "" and NO_TAG_ID where it has no tag suffix and the kind is not ATTACH_TAG; no task name and time 0 for links and ATTACH_TAG; NO_LINK_ID for ATTACH_TAG and for task and event kinds |
| `Marks.CreateRejectsMissingOperation` | impl/src/main/java/io/perfmark/impl/Mark.java:58-61 | a null operation fails with a null error, and NONE with an invalid-argument error, whatever the other arguments are |
| `Marks.FallThroughOnlyForNone` | impl/src/main/java/io/perfmark/impl/Mark.java:84-117 | only NONE falls through the marker switch or the tag switch, and NONE is rejected earlier, so the AssertionErrors are unreachable |
| `Marks.MarkerRule` | impl/src/main/java/io/perfmark/impl/Mark.java:64-83 | the seven kinds TASK_START_M, TASK_START_TM, TASK_END_M, TASK_END_TM, EVENT_M, EVENT_TM and LINK_M keep the caller's marker; every other valid kind stores Marker.NONE |
| `Marks.TagRule` | impl/src/main/java/io/perfmark/impl/Mark.java:92-113 | the _T and _TM kinds and ATTACH_TAG keep the caller's tag name and id; every other valid kind stores "" and Long.MIN_VALUE |
| `Marks.LinkRule` | impl/src/main/java/io/perfmark/impl/Mark.java:119-122 | LINK and LINK_M records have a null task name and nanoTime 0; their link id is the tag-id argument and their tag id is NO_TAG_ID |
| `Marks.AttachTagRule` | impl/src/main/java/io/perfmark/impl/Mark.java:123-126 | ATTACH_TAG records have a null task name, nanoTime 0 and NO_LINK_ID; they keep the caller's tag and store Marker.NONE |
| `Marks.TaskEventRule` | impl/src/main/java/io/perfmark/impl/Mark.java:127-131 | every TASK_* and EVENT* record keeps the caller's task name and nanoTime and has link id NO_LINK_ID |
| `Marks.KindsPartition` | impl/src/main/java/io/perfmark/impl/Mark.java:119-131 | every valid kind is a link, ATTACH_TAG, or a task/event kind, and is exactly one of these, so the final if-chain covers every kind |
| `Marks.MarkerNames` | impl/src/main/java/io/perfmark/impl/Mark.java:64-73 | the kinds whose names end in _M or _TM are exactly the kinds the marker switch keeps |
| `Marks.TagNames` | impl/src/main/java/io/perfmark/impl/Mark.java:92-102 | the kinds whose names end in _T or _TM are exactly the tagged task and event kinds the tag switch keeps (ATTACH_TAG is the other) |
| `Marks.LinkNames` | impl/src/main/java/io/perfmark/impl/Mark.java:119 | the kinds whose names start with LINK are exactly LINK and LINK_M |
| `Marks.TaskEventNames` | impl/src/main/java/io/perfmark/impl/Mark.java:135-151 | the kinds whose names start with TASK_ or EVENT are exactly those declared between NONE and LINK |
| `Marks.TaskStartWithTagExample` | impl/src/main/java/io/perfmark/impl/Mark.java:50-133 | a TASK_START_T record for "db.query" keeps the task name, tag "user42"/7, time 12345 and generation 256, and stores Marker.NONE and NO_LINK_ID |
| `Marks.LinkExample` | impl/src/main/java/io/perfmark/impl/Mark.java:50-133 | a LINK record with tag-id input 99 has link id 99, tag id NO_TAG_ID, a null task name and nanoTime 0 |
| `Marks.ValueOf` | impl/src/main/java/io/perfmark/impl/Mark.java:154-162 | valueOf(i) succeeds exactly for 0 <= i < 16 and returns the kind whose ordinal is i; otherwise it throws the array index exception for i |
| `Marks.ValueOfOrdinal` | impl/src/main/java/io/perfmark/impl/Mark.java:135-162 | every kind is recovered by valueOf from its ordinal |
| `Marks.OperationCountFits` | impl/src/main/java/io/perfmark/impl/Mark.java:156-158 | there are 16 kinds, and 16 is at most 1 << GEN_OFFSET |
| `Marks.Equal` | impl/src/main/java/io/perfmark/impl/Mark.java:257-259 | equal(a, b) throws a NullPointerException exactly when a is null and b is not; otherwise it answers a == b |
| `Marks.ObjectsEquals` | impl/src/main/java/io/perfmark/impl/Mark.java:257-259 | the corrected helper, null-safe equality: true exactly when the two references hold equal values |
| `Marks.EqualsAsWritten` | impl/src/main/java/io/perfmark/impl/Mark.java:200-213 | equals as written answers false for null or a non-Mark; when it throws, the argument is a record and the exception is a NullPointerException; it answers true only for a record that matches in every field but the generation; it never throws when the receiver's task name, marker and tag name are all non-null |
| `Marks.Equals` | impl/src/main/java/io/perfmark/impl/Mark.java:200-213 | the corrected equals is true exactly when the argument is a record that matches in every field except possibly the generation |
| `Marks.EqualsIgnoresOnlyGeneration` | impl/src/main/java/io/perfmark/impl/Mark.java:200-213 | two records are equal exactly when they agree on every field except possibly the generation; a record is never equal to null or to a non-Mark |
| `Marks.EqualsIsEquivalence` | impl/src/main/java/io/perfmark/impl/Mark.java:200-213 | the corrected equals is reflexive, symmetric and transitive |
| `Marks.EqualsAsWrittenAgrees` | impl/src/main/java/io/perfmark/impl/Mark.java:200-213 | equals as written gives the corrected answer whenever it returns; it throws exactly when, in the order taskName, marker, tagName, it reaches a pair where the receiver's value is null and the other's is not |
| `Marks.EqualsAsWrittenThrowsOnLinkVersusTask` | impl/src/main/java/io/perfmark/impl/Mark.java:206 | comparing a LINK record with a TASK_START record throws a NullPointerException, while the reverse comparison returns false |
| `Marks.CreateEqualAcrossGenerations` | impl/src/main/java/io/perfmark/impl/Mark.java:132 | records built from the same arguments are equal whatever generations they carry |
| `Marks.HashElements` | impl/src/main/java/io/perfmark/impl/Mark.java:217-218 | the hashed array has seven slots and holds every field except the generation: the record is read back from the array and its generation |
| `Marks.ArraysHashCode` | impl/src/main/java/io/perfmark/impl/Mark.java:217 | the 31-fold in int arithmetic is congruent, modulo 2^32, to the documented list hash 31^n + the sum of each slot's hash times 31^(n-1-i), where a null slot hashes to 0 |
| `Marks.HashCode` | impl/src/main/java/io/perfmark/impl/Mark.java:215-219 | hashCode is congruent, modulo 2^32, to 31^7 plus the hashes of taskName, tagName, tagId, linkId, marker, nanoTime and operation weighted by 31^6 down to 1 |
| `Marks.HashCodeConsistentWithEquals` | impl/src/main/java/io/perfmark/impl/Mark.java:215-219 | equal records have equal hash codes, for any element hash codes |
| `Marks.ToString` | impl/src/main/java/io/perfmark/impl/Mark.java:221-248 | the string form starts with "Mark{" and ends with "}" |
| `Marks.ToStringFrame` | impl/src/main/java/io/perfmark/impl/Mark.java:221-248 | the string form begins with "Mark{taskName=" followed by the task name, and ends with ", operation=", the kind's name and "}" |
| `Marks.JoinEntriesAffixes` | impl/src/main/java/io/perfmark/impl/Mark.java:223-247 | entries joined with ", " begin with the first entry and end with ", " followed by the last entry |
| `Generators.ToGeneration` | impl/src/main/java/io/perfmark/impl/Generator.java:31-35 | id << 8 has its low 8 bits zero and its id bit (bit 8) of the same parity as id, overflow included; without overflow it is 256 * id |
| `Generators.GenerationId` | impl/src/main/java/io/perfmark/impl/Generator.java:54-56 | value >> 8 is the floor quotient: 256 * id <= value < 256 * id + 256 |
| `Generators.IsEnabled` | impl/src/main/java/io/perfmark/impl/Generator.java:45-48 | a value reads as enabled exactly when bit 8 of its two's-complement form is set (value mod 512 is at least 256) |
| `Generators.FailureValue` | impl/src/main/java/io/perfmark/impl/Generator.java:36-41 | FAILURE = -2 << 8 = -512; its low 8 bits are zero; its id is -2, which is even, so it reads as disabled |
| `Generators.ShiftKeepsParity` | impl/src/main/java/io/perfmark/impl/Generator.java:45-56 | a shifted id reads as enabled exactly when the id is odd, so an odd id is enabled and an even one disabled, overflow included |
| `Generators.ShiftRoundTrip` | impl/src/main/java/io/perfmark/impl/Generator.java:35-50 | for an id whose shift fits in 64 bits, shifting left then right by GEN_OFFSET returns the id |
| `Generators.FailureOnlyFromMinusTwo` | impl/src/main/java/io/perfmark/impl/Generator.java:36-41 | among ids whose shift fits, only -2 shifts to FAILURE, so no non-negative generation count collides with the sentinel |
| `Generators.Generator.constructor` | impl/src/main/java/io/perfmark/impl/Generator.java:43 | a new generator holds 0, which reads as disabled |
| `Generators.Generator.SetGeneration` | impl/src/main/java/io/perfmark/impl/Generator.java:45-52 | after a set, the stored value and the last value passed are both the argument |
| `Generators.Generator.SetGenerationFailed` | impl/src/main/java/io/perfmark/impl/Generator.java:36-41 | a set that failed records the value passed and stores FAILURE for readers |
| `Generators.Generator.GetGeneration` | impl/src/main/java/io/perfmark/impl/Generator.java:54-60 | a get returns the value passed to the most recent set, or FAILURE; an enabled reading is always the value last set |
| `Generators.Generator.CostOfSetNanos` | impl/src/main/java/io/perfmark/impl/Generator.java:62-69 | returns 1000000 and does not read or change the stored generation |
| `Generators.Generator.CostOfGetNanos` | impl/src/main/java/io/perfmark/impl/Generator.java:71-78 | returns 10 and does not read or change the stored generation |

## Findings

| source | as written | input that shows it | evidently intended | confidence | as-written member | corrected member |
|---|---|---|---|---|---|---|
| impl/src/main/java/io/perfmark/impl/Mark.java:257-259 | `equal(a, b)` is `a == b \|\| a.equals(b)`, so a null `a` with a non-null `b` throws NullPointerException; `equals` (line 206) calls it on taskName, marker and tagName in that order. taskName is always null for LINK, LINK_M and ATTACH_TAG records (lines 120, 124). tagName is null only when an ATTACH_TAG or `_T`/`_TM` record is built with a null tag name (line 100). marker is null only when an `_M`/`_TM` or LINK_M record is built with a null marker (line 72). LINK and ATTACH_TAG store `Marker.NONE` (lines 80-82), and LINK and LINK_M store tag name `""` (lines 109-111) | a LINK record's `equals` called with a TASK_START record (task name "t") as argument | null-safe comparison, as in `Objects.equals`, so that `equals` answers false and never throws | medium; not executed | `Marks.EqualsAsWritten`, exhibited by `Marks.EqualsAsWrittenThrowsOnLinkVersusTask` | `Marks.Equals` with `Marks.ObjectsEquals`, proved by `Marks.EqualsIsEquivalence`, `Marks.EqualsIgnoresOnlyGeneration` and `Marks.HashCodeConsistentWithEquals` |

## Left out

- The element hash codes inside `hashCode` are not modelled. These are `Long.hashCode`,
  `String.hashCode`, the enum's identity hash and `Marker.hashCode`. Together they are
  one parameter of `HashCode`, the function `elementHash: Element -> Int`. Only the `Arrays.hashCode` fold is modelled: it starts from 1, applies
  `31 * h + e` with `int` wrap-around, and hashes null as 0.
- The exact `toString` text is not modelled. The decimal form of a `long` and
  `Marker.toString` are parameters of `ToString`, and only its opening and closing are
  proved.
- `Marker` is not part of this model. Only its equality and `Marker.NONE` are used.
- Cross-thread visibility of `setGeneration` is not modelled. The source allows a set
  to become visible to other threads only eventually. The model is single-threaded, as
  `@NotThreadSafe` (impl/src/main/java/io/perfmark/impl/Generator.java:29) allows.
- Subclasses of `Generator` are not modelled. `Generator` is abstract. The model uses
  one concrete class that starts at 0. `SetGenerationFailed` stands for a subclass
  recording a failed set. Which implementation is active is decided outside this core.
- `Generators.Generator.GetGeneration`: this contract covers the sequential case only.
  It does not cover a reader on another thread that still sees an older value.
- src/main/java/io/grpc/contrib/perfmark/PerfMarkCloseable.java is not part of this
  model. It only forwards to `PerfMark.stopTask`, which is outside this core.
- `Mark.equals` against an arbitrary `Object` is modelled by passing `Null` both for
  `null` and for any object that is not a `Mark`. The `instanceof` test answers false
  for both.
