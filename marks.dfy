/** The PerfMark event record (io.perfmark.impl.Mark): one immutable value per
    recorded task start, task end, event, link or tag attachment, whose fields
    are kept or replaced by sentinels according to its operation kind. */
module Marks {
  import opened JavaBase
  import Generators

  const NO_TAG_NAME: string := ""
  const NO_TAG_ID: Long := LONG_MIN
  const NO_LINK_ID: Long := LONG_MIN
  const NO_NANOTIME: Long := 0

  /** A marker is an opaque token compared by equality; MarkerNone is the
      library's `Marker.NONE`. */
  datatype Marker = MarkerNone | MarkerToken(token: nat)

  /** The operation kinds, in declaration order. */
  datatype Operation =
    | NONE
    | TASK_START
    | TASK_START_T
    | TASK_START_M
    | TASK_START_TM
    | TASK_END
    | TASK_END_T
    | TASK_END_M
    | TASK_END_TM
    | EVENT
    | EVENT_T
    | EVENT_M
    | EVENT_TM
    | LINK
    | LINK_M
    | ATTACH_TAG

  /** `Operation.values()`. */
  const OperationValues: seq<Operation> :=
    [NONE, TASK_START, TASK_START_T, TASK_START_M, TASK_START_TM,
     TASK_END, TASK_END_T, TASK_END_M, TASK_END_TM,
     EVENT, EVENT_T, EVENT_M, EVENT_TM, LINK, LINK_M, ATTACH_TAG]

  /** The declaration index of each kind. */
  function Ordinal(op: Operation): nat
  {
    match op
    case NONE => 0
    case TASK_START => 1
    case TASK_START_T => 2
    case TASK_START_M => 3
    case TASK_START_TM => 4
    case TASK_END => 5
    case TASK_END_T => 6
    case TASK_END_M => 7
    case TASK_END_TM => 8
    case EVENT => 9
    case EVENT_T => 10
    case EVENT_M => 11
    case EVENT_TM => 12
    case LINK => 13
    case LINK_M => 14
    case ATTACH_TAG => 15
  }

  /** The declared name of each kind, which is also its `toString`. */
  function Name(op: Operation): string
  {
    match op
    case NONE => "NONE"
    case TASK_START => "TASK_START"
    case TASK_START_T => "TASK_START_T"
    case TASK_START_M => "TASK_START_M"
    case TASK_START_TM => "TASK_START_TM"
    case TASK_END => "TASK_END"
    case TASK_END_T => "TASK_END_T"
    case TASK_END_M => "TASK_END_M"
    case TASK_END_TM => "TASK_END_TM"
    case EVENT => "EVENT"
    case EVENT_T => "EVENT_T"
    case EVENT_M => "EVENT_M"
    case EVENT_TM => "EVENT_TM"
    case LINK => "LINK"
    case LINK_M => "LINK_M"
    case ATTACH_TAG => "ATTACH_TAG"
  }

  /** `Operation.valueOf(int)`: the constant at that index of the values
      array, or the array's index exception. */
  function ValueOf(ordinal: Int): (r: Result<Operation>)
    ensures r.Ok? <==> 0 <= ordinal < 16
    ensures r.Ok? ==> Ordinal(r.value) == ordinal
    ensures r.Throws? ==> r.exception == ArrayIndexOutOfBoundsException(ordinal)
  {
    if 0 <= ordinal < |OperationValues| then Ok(OperationValues[ordinal])
    else Throws(ArrayIndexOutOfBoundsException(ordinal))
  }

  /** Every kind is found again from its ordinal. */
  lemma ValueOfOrdinal(op: Operation)
    ensures ValueOf(Ordinal(op) as Int) == Ok(op)
  {
  }

  /** The static check of the enum: there are at most `1 << GEN_OFFSET` kinds. */
  lemma OperationCountFits()
    ensures |OperationValues| == 16
    ensures |OperationValues| <= IntShiftLeft(1, Generators.GEN_OFFSET)
  {
    Pow2Of8();
    assert Generators.GEN_OFFSET % 32 == 8;
    assert IntShiftLeft(1, Generators.GEN_OFFSET) == WrapInt(256);
  }

  // The field-presence table, stated from the kinds' names: a kind whose
  // name ends in _M or _TM carries a marker, one ending in _T or _TM a tag.

  predicate EndsWith(s: string, suffix: string)
  {
    |suffix| <= |s| && s[|s| - |suffix|..] == suffix
  }

  predicate StartsWith(s: string, prefix: string)
  {
    |prefix| <= |s| && s[..|prefix|] == prefix
  }

  predicate NamedWithMarker(op: Operation)
  {
    EndsWith(Name(op), "_M") || EndsWith(Name(op), "_TM")
  }

  predicate NamedWithTag(op: Operation)
  {
    EndsWith(Name(op), "_T") || EndsWith(Name(op), "_TM")
  }

  predicate IsLinkKind(op: Operation)
  {
    StartsWith(Name(op), "LINK")
  }

  predicate IsTaskOrEventKind(op: Operation)
  {
    StartsWith(Name(op), "TASK_") || StartsWith(Name(op), "EVENT")
  }

  /** The kinds whose names end in _M or _TM. */
  lemma {:induction false} MarkerNames(op: Operation)
    ensures NamedWithMarker(op) <==>
            op in {TASK_START_M, TASK_START_TM, TASK_END_M, TASK_END_TM, EVENT_M, EVENT_TM, LINK_M}
  {
    var n := Name(op);
    assert EndsWith(n, "_M") ==> n[|n| - 1] == 'M' && n[|n| - 2] == '_';
    assert EndsWith(n, "_TM") ==> n[|n| - 1] == 'M' && n[|n| - 2] == 'T' && n[|n| - 3] == '_';
    match op
    case NONE =>
    case TASK_START =>
    case TASK_START_T =>
    case TASK_START_M =>
    case TASK_START_TM =>
    case TASK_END =>
    case TASK_END_T =>
    case TASK_END_M =>
    case TASK_END_TM =>
    case EVENT =>
    case EVENT_T =>
    case EVENT_M =>
    case EVENT_TM =>
    case LINK =>
    case LINK_M =>
    case ATTACH_TAG =>
  }

  /** The kinds whose names end in _T or _TM. */
  lemma {:induction false} TagNames(op: Operation)
    ensures NamedWithTag(op) <==>
            op in {TASK_START_T, TASK_START_TM, TASK_END_T, TASK_END_TM, EVENT_T, EVENT_TM}
  {
    var n := Name(op);
    assert EndsWith(n, "_T") ==> n[|n| - 1] == 'T' && n[|n| - 2] == '_';
    assert EndsWith(n, "_TM") ==> n[|n| - 1] == 'M' && n[|n| - 2] == 'T' && n[|n| - 3] == '_';
    match op
    case NONE =>
    case TASK_START =>
    case TASK_START_T =>
    case TASK_START_M =>
    case TASK_START_TM =>
    case TASK_END =>
    case TASK_END_T =>
    case TASK_END_M =>
    case TASK_END_TM =>
    case EVENT =>
    case EVENT_T =>
    case EVENT_M =>
    case EVENT_TM =>
    case LINK =>
    case LINK_M =>
    case ATTACH_TAG =>
  }

  /** The kinds whose names start with LINK. */
  lemma {:induction false} LinkNames(op: Operation)
    ensures IsLinkKind(op) <==> op == LINK || op == LINK_M
  {
    var n := Name(op);
    assert StartsWith(n, "LINK") ==> n[0] == 'L';
    match op
    case NONE =>
    case TASK_START =>
    case TASK_START_T =>
    case TASK_START_M =>
    case TASK_START_TM =>
    case TASK_END =>
    case TASK_END_T =>
    case TASK_END_M =>
    case TASK_END_TM =>
    case EVENT =>
    case EVENT_T =>
    case EVENT_M =>
    case EVENT_TM =>
    case LINK =>
    case LINK_M =>
    case ATTACH_TAG =>
  }

  /** The kinds whose names start with TASK_ or EVENT: those declared
      between NONE and LINK. */
  lemma {:induction false} TaskEventNames(op: Operation)
    ensures IsTaskOrEventKind(op) <==> 1 <= Ordinal(op) <= 12
  {
    var n := Name(op);
    assert StartsWith(n, "TASK_") ==> n[0] == 'T';
    assert StartsWith(n, "EVENT") ==> n[0] == 'E';
    match op
    case NONE =>
    case TASK_START =>
    case TASK_START_T =>
    case TASK_START_M =>
    case TASK_START_TM =>
    case TASK_END =>
    case TASK_END_T =>
    case TASK_END_M =>
    case TASK_END_TM =>
    case EVENT =>
    case EVENT_T =>
    case EVENT_M =>
    case EVENT_TM =>
    case LINK =>
    case LINK_M =>
    case ATTACH_TAG =>
  }

  /** The record. Its fields are the getters of the Java class. */
  datatype Mark = Mark(
    taskName: Nullable<string>,
    marker: Nullable<Marker>,
    tagName: Nullable<string>,
    tagId: Long,
    linkId: Long,
    nanoTime: Long,
    generation: Long,
    operation: Operation)

  /** What a presence switch does with the caller's value. */
  datatype Dispatch = Keep | Replace | FallThrough

  /** The marker switch: keep the caller's marker, or store Marker.NONE. */
  function MarkerCheck(op: Operation): Dispatch
  {
    match op
    case TASK_START_M | TASK_START_TM | TASK_END_M | TASK_END_TM
       | EVENT_M | EVENT_TM | LINK_M => Keep
    case TASK_START | TASK_START_T | TASK_END | TASK_END_T
       | EVENT | EVENT_T | LINK | ATTACH_TAG => Replace
    case NONE => FallThrough
  }

  /** The tag switch: keep the caller's tag name and id, or store the
      no-tag sentinels. */
  function TagCheck(op: Operation): Dispatch
  {
    match op
    case TASK_START_T | TASK_START_TM | TASK_END_T | TASK_END_TM
       | EVENT_T | EVENT_TM | ATTACH_TAG => Keep
    case TASK_START | TASK_START_M | TASK_END | TASK_END_M
       | EVENT | EVENT_M | LINK | LINK_M => Replace
    case NONE => FallThrough
  }

  /** Only NONE falls through either switch, and NONE is rejected before
      them, so the AssertionError after each switch is unreachable. */
  lemma FallThroughOnlyForNone(op: Operation)
    ensures MarkerCheck(op) == FallThrough <==> op == NONE
    ensures TagCheck(op) == FallThrough <==> op == NONE
  {
  }

  /** The shape every constructed record has: the table of field presence by
      kind, with the sentinels in the slots a kind does not use. */
  predicate WellFormed(m: Mark)
  {
    && m.operation != NONE
    && (!NamedWithMarker(m.operation) ==> m.marker == NonNull(MarkerNone))
    && (!NamedWithTag(m.operation) && m.operation != ATTACH_TAG ==>
          m.tagName == NonNull(NO_TAG_NAME) && m.tagId == NO_TAG_ID)
    && (IsLinkKind(m.operation) ==>
          m.taskName == Null && m.nanoTime == NO_NANOTIME)
    && (m.operation == ATTACH_TAG ==>
          m.taskName == Null && m.nanoTime == NO_NANOTIME && m.linkId == NO_LINK_ID)
    && (IsTaskOrEventKind(m.operation) ==> m.linkId == NO_LINK_ID)
  }

  /** `Mark.create`: a null operation throws a NullPointerException, NONE an
      IllegalArgumentException; any other kind gives a record stamped with
      that operation and the given generation. */
  function Create(
    taskName: Nullable<string>,
    marker: Nullable<Marker>,
    tagName: Nullable<string>,
    tagId: Long,
    nanoTime: Long,
    generation: Long,
    operation: Nullable<Operation>): (r: Result<Mark>)
    ensures r.Ok? <==> operation.NonNull? && operation.value != NONE
    ensures operation.Null? ==>
              r == Throws(NullPointerException(NonNull("operation is null")))
    ensures operation == NonNull(NONE) ==>
              r == Throws(IllegalArgumentException(NonNull("bad operation")))
    ensures r.Ok? ==> r.value.operation == operation.value && r.value.generation == generation
  {
    if operation.Null? then Throws(NullPointerException(NonNull("operation is null")))
    else
      var op := operation.value;
      if op == NONE then Throws(IllegalArgumentException(NonNull("bad operation")))
      // The marker switch, then the tag switch; each throws an AssertionError
      // for a kind it does not list.
      else if MarkerCheck(op) == FallThrough then Throws(AssertionError(NonNull(Name(op))))
      else
        var markerField := if MarkerCheck(op) == Keep then marker else NonNull(MarkerNone);
        if TagCheck(op) == FallThrough then Throws(AssertionError(NonNull(Name(op))))
        else
          var (tagNameField, tagIdField) :=
            if TagCheck(op) == Keep then (tagName, tagId) else (NonNull(NO_TAG_NAME), NO_TAG_ID);
          // Links reuse the tag id argument as the link id; links and tag
          // attachments drop the task name and the time.
          var (taskNameField, nanoTimeField, linkIdField) :=
            if op == LINK || op == LINK_M then (Null, NO_NANOTIME, tagId)
            else if op == ATTACH_TAG then (Null, NO_NANOTIME, NO_LINK_ID)
            else (taskName, nanoTime, NO_LINK_ID);
          Ok(Mark(taskNameField, markerField, tagNameField, tagIdField,
                  linkIdField, nanoTimeField, generation, op))
  }

  /** Every record Create returns has the shape of the presence table, which
      is stated from the kinds' names rather than from the switches. */
  lemma CreateWellFormed(
    taskName: Nullable<string>, marker: Nullable<Marker>, tagName: Nullable<string>,
    tagId: Long, nanoTime: Long, generation: Long, operation: Nullable<Operation>)
    ensures var r := Create(taskName, marker, tagName, tagId, nanoTime, generation, operation);
            r.Ok? ==> WellFormed(r.value)
  {
    if operation.NonNull? {
      var op := operation.value;
      MarkerNames(op);
      TagNames(op);
      LinkNames(op);
      TaskEventNames(op);
    }
  }

  /** The seven marker kinds keep the caller's marker; every other valid
      kind stores Marker.NONE. */
  lemma MarkerRule(
    taskName: Nullable<string>, marker: Nullable<Marker>, tagName: Nullable<string>,
    tagId: Long, nanoTime: Long, generation: Long, op: Operation)
    requires op != NONE
    ensures Create(taskName, marker, tagName, tagId, nanoTime, generation, NonNull(op)).Ok?
    ensures Create(taskName, marker, tagName, tagId, nanoTime, generation, NonNull(op)).value.marker
            == if op in {TASK_START_M, TASK_START_TM, TASK_END_M, TASK_END_TM, EVENT_M, EVENT_TM, LINK_M}
               then marker else NonNull(MarkerNone)
  {
  }

  /** The _T and _TM kinds and ATTACH_TAG keep the caller's tag name and id;
      every other valid kind stores "" and Long.MIN_VALUE. */
  lemma TagRule(
    taskName: Nullable<string>, marker: Nullable<Marker>, tagName: Nullable<string>,
    tagId: Long, nanoTime: Long, generation: Long, op: Operation)
    requires op != NONE
    ensures Create(taskName, marker, tagName, tagId, nanoTime, generation, NonNull(op)).Ok?
    ensures var m := Create(taskName, marker, tagName, tagId, nanoTime, generation, NonNull(op)).value;
            if op in {TASK_START_T, TASK_START_TM, TASK_END_T, TASK_END_TM, EVENT_T, EVENT_TM, ATTACH_TAG}
            then m.tagName == tagName && m.tagId == tagId
            else m.tagName == NonNull(NO_TAG_NAME) && m.tagId == NO_TAG_ID
  {
  }

  /** LINK and LINK_M records carry no task name and no time; the tag-id
      argument becomes the link id and the tag id slot holds NO_TAG_ID. */
  lemma LinkRule(
    taskName: Nullable<string>, marker: Nullable<Marker>, tagName: Nullable<string>,
    tagId: Long, nanoTime: Long, generation: Long, op: Operation)
    requires op == LINK || op == LINK_M
    ensures Create(taskName, marker, tagName, tagId, nanoTime, generation, NonNull(op)).Ok?
    ensures var m := Create(taskName, marker, tagName, tagId, nanoTime, generation, NonNull(op)).value;
            m.taskName == Null && m.nanoTime == NO_NANOTIME && m.linkId == tagId && m.tagId == NO_TAG_ID
  {
  }

  /** ATTACH_TAG records carry the caller's tag, but no task name, no time
      and no link. */
  lemma AttachTagRule(
    taskName: Nullable<string>, marker: Nullable<Marker>, tagName: Nullable<string>,
    tagId: Long, nanoTime: Long, generation: Long)
    ensures Create(taskName, marker, tagName, tagId, nanoTime, generation, NonNull(ATTACH_TAG)).Ok?
    ensures var m := Create(taskName, marker, tagName, tagId, nanoTime, generation, NonNull(ATTACH_TAG)).value;
            && m.taskName == Null && m.nanoTime == NO_NANOTIME && m.linkId == NO_LINK_ID
            && m.tagName == tagName && m.tagId == tagId && m.marker == NonNull(MarkerNone)
  {
  }

  /** Task and event records keep the caller's task name and time and carry
      no link. */
  lemma TaskEventRule(
    taskName: Nullable<string>, marker: Nullable<Marker>, tagName: Nullable<string>,
    tagId: Long, nanoTime: Long, generation: Long, op: Operation)
    requires op in {TASK_START, TASK_START_T, TASK_START_M, TASK_START_TM,
                    TASK_END, TASK_END_T, TASK_END_M, TASK_END_TM,
                    EVENT, EVENT_T, EVENT_M, EVENT_TM}
    ensures Create(taskName, marker, tagName, tagId, nanoTime, generation, NonNull(op)).Ok?
    ensures var m := Create(taskName, marker, tagName, tagId, nanoTime, generation, NonNull(op)).value;
            m.taskName == taskName && m.nanoTime == nanoTime && m.linkId == NO_LINK_ID
  {
  }

  /** The three groups of kinds cover every valid kind exactly once, so the
      rules above fix every field of every record. */
  lemma KindsPartition(op: Operation)
    requires op != NONE
    ensures IsLinkKind(op) || op == ATTACH_TAG || IsTaskOrEventKind(op)
    ensures !(IsLinkKind(op) && IsTaskOrEventKind(op))
    ensures op == ATTACH_TAG ==> !IsLinkKind(op) && !IsTaskOrEventKind(op)
  {
    LinkNames(op);
    TaskEventNames(op);
  }

  /** A null operation is rejected before NONE is considered, whatever the
      other arguments. */
  lemma CreateRejectsMissingOperation(
    taskName: Nullable<string>, marker: Nullable<Marker>, tagName: Nullable<string>,
    tagId: Long, nanoTime: Long, generation: Long)
    ensures Create(taskName, marker, tagName, tagId, nanoTime, generation, Null)
            == Throws(NullPointerException(NonNull("operation is null")))
    ensures Create(taskName, marker, tagName, tagId, nanoTime, generation, NonNull(NONE))
            == Throws(IllegalArgumentException(NonNull("bad operation")))
  {
  }

  // Equality and hashing.

  /** `Mark.equal(a, b)`, that is `a == b || a.equals(b)`: a null first
      argument with a non-null second one throws a NullPointerException. */
  function Equal<T(==)>(a: Nullable<T>, b: Nullable<T>): (r: Result<bool>)
    ensures r.Throws? <==> a.Null? && b.NonNull?
    ensures r.Throws? ==> r.exception.NullPointerException?
    ensures r.Ok? ==> (r.value <==> a == b)
  {
    if a == b then Ok(true)
    else if a.Null? then Throws(NullPointerException(Null))
    else Ok(a == b)
  }

  /** `java.util.Objects.equals(a, b)`: null-safe equality. */
  function ObjectsEquals<T(==)>(a: Nullable<T>, b: Nullable<T>): (r: bool)
    ensures r <==> a == b
  {
    a == b || (a.NonNull? && b.NonNull? && a.value == b.value)
  }

  /** `Mark.equals(obj)` as written, through `equal`; `obj` is Null both for
      null and for an object that is not a Mark. */
  function EqualsAsWritten(self: Mark, obj: Nullable<Mark>): (r: Result<bool>)
    ensures obj.Null? ==> r == Ok(false)
    ensures r.Throws? ==> obj.NonNull? && r.exception == NullPointerException(Null)
    ensures r == Ok(true) ==> obj.NonNull? && self.(generation := obj.value.generation) == obj.value
    ensures self.taskName.NonNull? && self.marker.NonNull? && self.tagName.NonNull? ==> r.Ok?
  {
    if obj.Null? then Ok(false)
    else
      var that := obj.value;
      var sameTaskName :- Equal(self.taskName, that.taskName);
      if !sameTaskName then Ok(false)
      else
        var sameMarker :- Equal(self.marker, that.marker);
        if !sameMarker then Ok(false)
        else
          var sameTagName :- Equal(self.tagName, that.tagName);
          Ok(sameTagName
             && self.tagId == that.tagId
             && self.linkId == that.linkId
             && self.nanoTime == that.nanoTime
             && self.operation == that.operation)
  }

  /** `Mark.equals(obj)` with the null-safe comparison the method evidently
      intends: the seven fields other than the generation are compared. */
  function Equals(self: Mark, obj: Nullable<Mark>): (r: bool)
    ensures r <==> obj.NonNull? && self.(generation := obj.value.generation) == obj.value
  {
    && obj.NonNull?
    && ObjectsEquals(self.taskName, obj.value.taskName)
    && ObjectsEquals(self.marker, obj.value.marker)
    && ObjectsEquals(self.tagName, obj.value.tagName)
    && self.tagId == obj.value.tagId
    && self.linkId == obj.value.linkId
    && self.nanoTime == obj.value.nanoTime
    && self.operation == obj.value.operation
  }

  /** Two records are equal exactly when they agree everywhere except
      possibly in the generation. */
  lemma EqualsIgnoresOnlyGeneration(a: Mark, b: Mark)
    ensures Equals(a, NonNull(b)) <==> a.(generation := b.generation) == b
    ensures !Equals(a, Null)
  {
  }

  /** Equals is an equivalence relation on records. */
  lemma EqualsIsEquivalence(a: Mark, b: Mark, c: Mark)
    ensures Equals(a, NonNull(a))
    ensures Equals(a, NonNull(b)) ==> Equals(b, NonNull(a))
    ensures Equals(a, NonNull(b)) && Equals(b, NonNull(c)) ==> Equals(a, NonNull(c))
  {
  }

  /** Equals as written gives the intended answer whenever it does not throw,
      and it throws exactly when the first field pair it reaches where the
      receiver's value is null and the other's is not. */
  lemma EqualsAsWrittenAgrees(a: Mark, obj: Nullable<Mark>)
    ensures EqualsAsWritten(a, obj).Ok? ==> EqualsAsWritten(a, obj).value == Equals(a, obj)
    ensures EqualsAsWritten(a, obj).Throws? <==>
            obj.NonNull? &&
            (|| (a.taskName.Null? && obj.value.taskName.NonNull?)
             || (a.taskName == obj.value.taskName && a.marker.Null? && obj.value.marker.NonNull?)
             || (a.taskName == obj.value.taskName && a.marker == obj.value.marker
                 && a.tagName.Null? && obj.value.tagName.NonNull?))
  {
  }

  /** A LINK record compared with a TASK_START record: equals as written
      throws a NullPointerException one way and answers false the other. */
  lemma EqualsAsWrittenThrowsOnLinkVersusTask()
    ensures var link := Create(NonNull("t"), NonNull(MarkerNone), Null, 7, 5, 256, NonNull(LINK));
            var task := Create(NonNull("t"), NonNull(MarkerNone), Null, 7, 5, 256, NonNull(TASK_START));
            && link.Ok? && task.Ok?
            && EqualsAsWritten(link.value, NonNull(task.value)) == Throws(NullPointerException(Null))
            && EqualsAsWritten(task.value, NonNull(link.value)) == Ok(false)
            && !Equals(link.value, NonNull(task.value))
  {
  }

  /** Records built from the same arguments, whatever their generations, are
      equal. */
  lemma CreateEqualAcrossGenerations(
    taskName: Nullable<string>, marker: Nullable<Marker>, tagName: Nullable<string>,
    tagId: Long, nanoTime: Long, g1: Long, g2: Long, op: Operation)
    requires op != NONE
    ensures var a := Create(taskName, marker, tagName, tagId, nanoTime, g1, NonNull(op));
            var b := Create(taskName, marker, tagName, tagId, nanoTime, g2, NonNull(op));
            a.Ok? && b.Ok? && Equals(a.value, NonNull(b.value))
  {
    var a := Create(taskName, marker, tagName, tagId, nanoTime, g1, NonNull(op));
    var b := Create(taskName, marker, tagName, tagId, nanoTime, g2, NonNull(op));
    assert a.value.(generation := g2) == b.value;
    EqualsIgnoresOnlyGeneration(a.value, b.value);
  }

  /** An element of the array given to `Arrays.hashCode`. */
  datatype Element =
    | StringElement(s: string)
    | LongElement(l: Long)
    | MarkerElement(m: Marker)
    | OperationElement(op: Operation)

  /** The array hashed by `Mark.hashCode`, in its order: taskName, tagName,
      tagId, linkId, marker, nanoTime, operation. It holds every field but the
      generation: together with the generation it gives the record back. */
  function HashElements(m: Mark): (r: seq<Nullable<Element>>)
    ensures |r| == 7
    ensures MarkFromElements(r, m.generation) == NonNull(m)
  {
    [ match m.taskName case Null => Null case NonNull(s) => NonNull(StringElement(s)),
      match m.tagName case Null => Null case NonNull(s) => NonNull(StringElement(s)),
      NonNull(LongElement(m.tagId)),
      NonNull(LongElement(m.linkId)),
      match m.marker case Null => Null case NonNull(k) => NonNull(MarkerElement(k)),
      NonNull(LongElement(m.nanoTime)),
      NonNull(OperationElement(m.operation)) ]
  }

  /** Reads a record back from the seven elements of a hash array and a
      generation; Null when the elements do not have the kinds of that array. */
  function MarkFromElements(elements: seq<Nullable<Element>>, generation: Long): Nullable<Mark>
  {
    if |elements| != 7 then Null
    else
      var taskName, tagName, tagId, linkId, marker, nanoTime, operation :=
        elements[0], elements[1], elements[2], elements[3], elements[4], elements[5], elements[6];
      if && (taskName.Null? || taskName.value.StringElement?)
         && (tagName.Null? || tagName.value.StringElement?)
         && tagId.NonNull? && tagId.value.LongElement?
         && linkId.NonNull? && linkId.value.LongElement?
         && (marker.Null? || marker.value.MarkerElement?)
         && nanoTime.NonNull? && nanoTime.value.LongElement?
         && operation.NonNull? && operation.value.OperationElement?
      then
        NonNull(Mark(
          if taskName.Null? then Null else NonNull(taskName.value.s),
          if marker.Null? then Null else NonNull(marker.value.m),
          if tagName.Null? then Null else NonNull(tagName.value.s),
          tagId.value.l, linkId.value.l, nanoTime.value.l, generation, operation.value.op))
      else Null
  }

  /** The hash code of one array slot: 0 for null. */
  function NullableHash(e: Nullable<Element>, elementHash: Element -> Int): Int
  {
    match e case Null => 0 case NonNull(x) => elementHash(x)
  }

  function Pow31(n: nat): (r: nat)
    ensures r >= 1
  {
    if n == 0 then 1 else 31 * Pow31(n - 1)
  }

  /** The slots' hash codes weighted by descending powers of 31, in exact
      integers: the first of n slots has weight 31^(n-1), the last 1. */
  ghost function WeightedSum(elements: seq<Nullable<Element>>, elementHash: Element -> Int): int
    decreases |elements|
  {
    if elements == [] then 0
    else NullableHash(elements[0], elementHash) * Pow31(|elements| - 1)
         + WeightedSum(elements[1..], elementHash)
  }

  /** The hash code of a list as Java's documentation states it, without
      wrap-around: 31^n plus the weighted sum of the slots. */
  ghost function HashPolynomial(elements: seq<Nullable<Element>>, elementHash: Element -> Int): int
  {
    Pow31(|elements|) + WeightedSum(elements, elementHash)
  }

  lemma {:induction false} WeightedSumAppend(
    elements: seq<Nullable<Element>>, x: Nullable<Element>, elementHash: Element -> Int)
    ensures WeightedSum(elements + [x], elementHash)
            == 31 * WeightedSum(elements, elementHash) + NullableHash(x, elementHash)
  {
    if elements == [] {
      assert elements + [x] == [x];
    } else {
      var first, rest := elements[0], elements[1..];
      assert (elements + [x])[1..] == rest + [x];
      WeightedSumAppend(rest, x, elementHash);
      var h, p := NullableHash(first, elementHash), Pow31(|rest|);
      assert Pow31(|elements|) == 31 * p;
      assert h * (31 * p) == 31 * (h * p);
    }
  }

  /** One step of the fold stays congruent, modulo 2^32, to the polynomial. */
  lemma CongruentStep(r: int, r0: int, p0: int, h: int)
    requires (r0 - p0) % INT_MODULUS == 0
    requires (31 * r0 + h - r) % INT_MODULUS == 0
    ensures (r - (31 * p0 + h)) % INT_MODULUS == 0
  {
    var a, b := (31 * r0 + h - r) / INT_MODULUS, (r0 - p0) / INT_MODULUS;
    assert 31 * r0 + h - r == INT_MODULUS * a;
    assert r0 - p0 == INT_MODULUS * b;
    assert r - (31 * p0 + h) == INT_MODULUS * (31 * b - a);
  }

  /** `Arrays.hashCode(Object[])`: starting from 1, each element folds in as
      `31 * result + hash`, with a null element hashing to 0, in `int`
      arithmetic. The result is the list hash polynomial reduced to an `int`.
      The elements' own hash codes are the parameter. */
  function ArraysHashCode(elements: seq<Nullable<Element>>, elementHash: Element -> Int): (r: Int)
    ensures (r - HashPolynomial(elements, elementHash)) % INT_MODULUS == 0
    decreases |elements|
  {
    if elements == [] then 1
    else
      var prefix, last := elements[..|elements| - 1], elements[|elements| - 1];
      var r0 := ArraysHashCode(prefix, elementHash);
      var h := NullableHash(last, elementHash);
      assert prefix + [last] == elements;
      WeightedSumAppend(prefix, last, elementHash);
      CongruentStep(WrapInt(31 * r0 + h), r0, HashPolynomial(prefix, elementHash), h);
      WrapInt(31 * r0 + h)
  }

  /** `Mark.hashCode`: modulo 2^32, 31^7 plus the seven slot hashes (taskName,
      tagName, tagId, linkId, marker, nanoTime, operation) weighted by 31^6
      down to 1. */
  function HashCode(m: Mark, elementHash: Element -> Int): (r: Int)
    ensures var e := HashElements(m);
            (r - (Pow31(7) + NullableHash(e[0], elementHash) * Pow31(6)
                  + NullableHash(e[1], elementHash) * Pow31(5)
                  + NullableHash(e[2], elementHash) * Pow31(4)
                  + NullableHash(e[3], elementHash) * Pow31(3)
                  + NullableHash(e[4], elementHash) * Pow31(2)
                  + NullableHash(e[5], elementHash) * Pow31(1)
                  + NullableHash(e[6], elementHash))) % INT_MODULUS == 0
  {
    WeightedSumOfSeven(HashElements(m), elementHash);
    ArraysHashCode(HashElements(m), elementHash)
  }

  /** The weighted sum of seven slots, written out. */
  lemma WeightedSumOfSeven(e: seq<Nullable<Element>>, elementHash: Element -> Int)
    requires |e| == 7
    ensures WeightedSum(e, elementHash)
            == NullableHash(e[0], elementHash) * Pow31(6) + NullableHash(e[1], elementHash) * Pow31(5)
               + NullableHash(e[2], elementHash) * Pow31(4) + NullableHash(e[3], elementHash) * Pow31(3)
               + NullableHash(e[4], elementHash) * Pow31(2) + NullableHash(e[5], elementHash) * Pow31(1)
               + NullableHash(e[6], elementHash)
  {
    forall k | 0 <= k < 7
      ensures WeightedSum(e[k..], elementHash)
              == NullableHash(e[k], elementHash) * Pow31(6 - k) + WeightedSum(e[k + 1..], elementHash)
    {
      assert e[k..][1..] == e[k + 1..];
    }
    assert e[7..] == [];
    assert e[0..] == e;
  }

  /** Equal records have equal hash codes, for any element hash codes. */
  lemma HashCodeConsistentWithEquals(a: Mark, b: Mark, elementHash: Element -> Int)
    requires Equals(a, NonNull(b))
    ensures HashCode(a, elementHash) == HashCode(b, elementHash)
  {
    EqualsIgnoresOnlyGeneration(a, b);
  }

  // The string form.

  function NullableText(s: Nullable<string>): string
  {
    match s case Null => "null" case NonNull(t) => t
  }

  /** The `label=value` entries of `Mark.toString`, in its order. The decimal
      form of a long and a marker's own string form are parameters. */
  function ToStringEntries(m: Mark, longText: Long -> string, markerText: Marker -> string): (r: seq<string>)
    ensures |r| == 8
  {
    [ "taskName=" + NullableText(m.taskName),
      "tagName=" + NullableText(m.tagName),
      "tagId=" + longText(m.tagId),
      "linkId=" + longText(m.linkId),
      "marker=" + (match m.marker case Null => "null" case NonNull(k) => markerText(k)),
      "nanoTime=" + longText(m.nanoTime),
      "generation=" + longText(m.generation),
      "operation=" + Name(m.operation) ]
  }

  /** The entries separated by ", ". */
  function JoinEntries(entries: seq<string>): string
    decreases |entries|
  {
    if |entries| == 0 then ""
    else if |entries| == 1 then entries[0]
    else entries[0] + ", " + JoinEntries(entries[1..])
  }

  /** `Mark.toString`: "Mark{", the entries, "}". */
  function ToString(m: Mark, longText: Long -> string, markerText: Marker -> string): (r: string)
    ensures StartsWith(r, "Mark{") && EndsWith(r, "}")
  {
    var body := JoinEntries(ToStringEntries(m, longText, markerText));
    ConcatAffixes("Mark{", body + "}");
    ConcatAffixes("Mark{" + body, "}");
    "Mark{" + body + "}"
  }

  lemma ConcatAffixes(a: string, b: string)
    ensures StartsWith(a + b, a) && EndsWith(a + b, b)
  {
    assert (a + b)[..|a|] == a;
    assert (a + b)[|a + b| - |b|..] == b;
  }

  /** A joined list begins with its first entry and ends with ", " and its
      last entry. */
  lemma {:induction false} JoinEntriesAffixes(entries: seq<string>)
    requires |entries| >= 2
    ensures StartsWith(JoinEntries(entries), entries[0])
    ensures EndsWith(JoinEntries(entries), ", " + entries[|entries| - 1])
  {
    var rest := JoinEntries(entries[1..]);
    assert JoinEntries(entries) == entries[0] + (", " + rest);
    ConcatAffixes(entries[0], ", " + rest);
    if |entries| == 2 {
      assert rest == entries[1];
    } else {
      JoinEntriesAffixes(entries[1..]);
      var tail := ", " + entries[|entries| - 1];
      SuffixExtends(entries[0] + ", ", rest, tail);
    }
  }

  lemma SuffixExtends(front: string, s: string, suffix: string)
    requires EndsWith(s, suffix)
    ensures EndsWith(front + s, suffix)
  {
    assert (front + s)[|front + s| - |suffix|..] == s[|s| - |suffix|..];
  }

  /** Wrapping a text between an opening and a closing keeps its first and
      last parts at the two ends. */
  lemma WrapAffixes(open: string, text: string, close: string, first: string, last: string)
    requires StartsWith(text, first) && EndsWith(text, last)
    ensures StartsWith(open + text + close, open + first)
    ensures EndsWith(open + text + close, last + close)
  {
    assert (open + text + close)[..|open + first|] == open + text[..|first|];
    assert (open + text + close)[|open + text + close| - |last + close|..]
        == text[|text| - |last|..] + close;
  }

  /** The string form opens with the task name's entry and closes with the
      operation's entry. */
  lemma ToStringFrame(m: Mark, longText: Long -> string, markerText: Marker -> string)
    ensures StartsWith(ToString(m, longText, markerText), "Mark{" + ("taskName=" + NullableText(m.taskName)))
    ensures EndsWith(ToString(m, longText, markerText), (", " + ("operation=" + Name(m.operation))) + "}")
  {
    var entries := ToStringEntries(m, longText, markerText);
    JoinEntriesAffixes(entries);
    WrapAffixes("Mark{", JoinEntries(entries), "}", entries[0], ", " + entries[7]);
  }

  /** The task-start-with-tag record of a tagged query. */
  lemma TaskStartWithTagExample()
    ensures Create(NonNull("db.query"), NonNull(MarkerToken(3)), NonNull("user42"), 7, 12345, 256,
                   NonNull(TASK_START_T))
            == Ok(Mark(NonNull("db.query"), NonNull(MarkerNone), NonNull("user42"), 7, NO_LINK_ID,
                       12345, 256, TASK_START_T))
  {
  }

  /** A link record: the tag-id input is the link id. */
  lemma LinkExample()
    ensures Create(NonNull("ignored"), NonNull(MarkerToken(3)), NonNull("tag"), 99, 12345, 512,
                   NonNull(LINK))
            == Ok(Mark(Null, NonNull(MarkerNone), NonNull(NO_TAG_NAME), NO_TAG_ID, 99,
                       NO_NANOTIME, 512, LINK))
  {
    LinkRule(NonNull("ignored"), NonNull(MarkerToken(3)), NonNull("tag"), 99, 12345, 512, LINK);
    MarkerRule(NonNull("ignored"), NonNull(MarkerToken(3)), NonNull("tag"), 99, 12345, 512, LINK);
    TagRule(NonNull("ignored"), NonNull(MarkerToken(3)), NonNull("tag"), 99, 12345, 512, LINK);
  }
}
