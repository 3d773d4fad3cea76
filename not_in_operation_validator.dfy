/**
 * The validator that decides whether a query value may be used with the
 * not-in (`$nin`) filter operator. It never throws: a rejection is a
 * failure appended to a list the caller owns.
 */
module NotInValidation {
  import opened Wrappers
  import opened JavaValues
  import opened Mapping

  /** The filter operators the query validators are keyed by (the ones the validator tests name). */
  datatype FilterOperator = Equal | In | NotIn | All | Exists | Mod | Size | GeoWithin

  /**
   * `CollectionTypeValidator.typeIsIterableOrArrayOrMap`: the class is an
   * `Iterable`, an array type or a `Map`.
   */
  predicate IsIterableOrArrayOrMap(c: JClass)
  {
    match c.kind
    case ListLike | SetLike | OtherIterable | MapLike | NativeArray => true
    case StringKind | IntegerKind | OtherKind => false
  }

  /** What `$nin` accepts: a non-null value whose class is iterable, an array or a map. */
  predicate AcceptsForNotIn(v: Value)
  {
    v.Obj? && IsIterableOrArrayOrMap(v.cls)
  }

  /**
   * A validation failure, tagged by its cause. A not-collection failure
   * carries the rendered value and the value's class, which its message names.
   */
  datatype ValidationFailure =
    | NinNullValue
    | NinNotCollection(valueText: string, valueClass: JClass)

  const NullValueMessage: string := "For a $nin operation, value cannot be null."
  const NotCollectionLead: string := "For a $nin operation, value '"
  const NotCollectionMiddle: string := "' should be a List or array. Instead it was a: "

  /** The message text of a failure, as the validator formats it. */
  function Message(f: ValidationFailure): (m: string)
  {
    match f
    case NinNullValue => NullValueMessage
    case NinNotCollection(t, c) => NotCollectionLead + t + NotCollectionMiddle + ClassToString(c)
  }

  /** The failure that rejects `v`, for a value `$nin` does not accept. */
  function RejectionOf(v: Value): (f: ValidationFailure)
  {
    match v
    case Null => NinNullValue
    case Obj(c, t) => NinNotCollection(t, c)
  }

  /**
   * The failures one validation of `v` appends: none when `$nin` accepts
   * the value, otherwise exactly the one failure naming why.
   */
  function NinFailures(v: Value): (r: seq<ValidationFailure>)
    ensures |r| <= 1
    ensures r == [] <==> AcceptsForNotIn(v)
    ensures r != [] ==> r == [RejectionOf(v)]
    ensures v.Null? ==> r == [NinNullValue]
  {
    if v.Null? then [NinNullValue]
    else if !IsIterableOrArrayOrMap(v.cls) then [NinNotCollection(v.text, v.cls)]
    else []
  }

  /** The caller-owned `List<ValidationFailure>` the validators append to. */
  class FailureList {
    var items: seq<ValidationFailure>

    constructor ()
      ensures items == []
    {
      items := [];
    }

    method Add(f: ValidationFailure)
      modifies this
      ensures items == old(items) + [f]
    {
      items := items + [f];
    }
  }

  /** The stateless `$nin` validator. */
  class NotInOperationValidator {

    constructor ()
    {
    }

    /** The operator this validator is responsible for. */
    function GetOperator(): (op: FilterOperator)
      ensures op == NotIn
    {
      NotIn
    }

    /**
     * Appends to `failures` the failures `NinFailures(value)` prescribes and
     * nothing else: the earlier failures stay in place and in order, at most
     * one is added, and the mapped field has no say in the outcome.
     */
    method Validate(mappedField: Option<MappedField>, value: Value, failures: FailureList)
      modifies failures
      ensures failures.items == old(failures.items) + NinFailures(value)
      ensures old(failures.items) <= failures.items
      ensures |failures.items| <= |old(failures.items)| + 1
    {
      if value.Null? {
        failures.Add(NinNullValue);
      } else if !IsIterableOrArrayOrMap(value.cls) {
        failures.Add(NinNotCollection(value.text, value.cls));
      }
    }
  }

  /** The class-level state of the validator: its single `INSTANCE`. */
  class NotInOperationValidatorStatics {
    const Instance: NotInOperationValidator

    constructor ()
      ensures fresh(Instance)
    {
      Instance := new NotInOperationValidator();
    }

    /** Every call hands out the one instance created with the class. */
    method GetInstance() returns (v: NotInOperationValidator)
      ensures v == Instance
    {
      v := Instance;
    }
  }

  /** The null-value failure carries the fixed message. */
  lemma NullValueRejected()
    ensures NinFailures(Null) == [NinNullValue]
    ensures Message(NinNullValue) == "For a $nin operation, value cannot be null."
  {
  }

  /** A non-null value of a non-collection class is rejected by a message naming the value and its class. */
  lemma NotCollectionMessageNamesValueAndClass(v: Value)
    requires v.Obj? && !IsIterableOrArrayOrMap(v.cls)
    ensures NinFailures(v) == [NinNotCollection(v.text, v.cls)]
    ensures Mentions(Message(NinFailures(v)[0]), v.text)
    ensures Mentions(Message(NinFailures(v)[0]), ClassToString(v.cls))
  {
    var m := Message(NinNotCollection(v.text, v.cls));
    var i := |NotCollectionLead|;
    var j := i + |v.text| + |NotCollectionMiddle|;
    assert OccursAt(m, v.text, i);
    assert OccursAt(m, ClassToString(v.cls), j);
  }

  /** The values the validator tests pass to `$nin`: lists, sets, maps and `int[]` pass, a string does not. */
  lemma NotInTestValues()
    ensures NinFailures(Obj(JClass("java.util.Arrays$ArrayList", ListLike), "[1, 2]")) == []
    ensures NinFailures(Obj(JClass("java.util.Collections$EmptySet", SetLike), "[]")) == []
    ensures NinFailures(Obj(JClass("java.util.HashMap", MapLike), "{}")) == []
    ensures NinFailures(Obj(JClass("[I", NativeArray), "[I@1b6d3586")) == []
    ensures NinFailures(Obj(JClass("java.lang.String", StringKind), "value"))
         == [NinNotCollection("value", JClass("java.lang.String", StringKind))]
  {
  }

  // ---------------------------------------------------------------------
  // Several validations sharing one caller-owned list.

  /** The list that starts as `fs` after `Validate` has been called on each of `vs` in turn. */
  ghost function AfterCalls(fs: seq<ValidationFailure>, vs: seq<Value>): (r: seq<ValidationFailure>)
    decreases |vs|
  {
    if vs == [] then fs else AfterCalls(fs + NinFailures(vs[0]), vs[1..])
  }

  /**
   * One more call extends the list exactly as `Validate` does, so
   * `AfterCalls` is the list after the calls, one `Validate` at a time.
   */
  lemma {:induction false} AfterOneMoreCall(fs: seq<ValidationFailure>, vs: seq<Value>, v: Value)
    ensures AfterCalls(fs, vs + [v]) == AfterCalls(fs, vs) + NinFailures(v)
    decreases |vs|
  {
    if vs == [] {
      assert [] + [v] == [v];
      assert AfterCalls(fs + NinFailures(v), []) == fs + NinFailures(v);
    } else {
      assert (vs + [v])[0] == vs[0];
      assert (vs + [v])[1..] == vs[1..] + [v];
      AfterOneMoreCall(fs + NinFailures(vs[0]), vs[1..], v);
    }
  }

  /** Two calls of `Validate` on one list leave it as `AfterCalls` describes. */
  method ValidateInTurn(validator: NotInOperationValidator, v1: Value, v2: Value, failures: FailureList)
    modifies failures
    ensures failures.items == AfterCalls(old(failures.items), [v1, v2])
  {
    ghost var before := failures.items;
    validator.Validate(None, v1, failures);
    validator.Validate(None, v2, failures);
    AfterOneMoreCall(before, [], v1);
    AfterOneMoreCall(before, [v1], v2);
    assert [v1] + [v2] == [v1, v2];
    assert [] + [v1] == [v1];
  }

  /** The values among `vs` that `$nin` rejects, in their original order. */
  function Rejected(vs: seq<Value>): (r: seq<Value>)
    ensures |r| <= |vs|
    ensures forall i :: 0 <= i < |r| ==> r[i] in vs && !AcceptsForNotIn(r[i])
  {
    if vs == [] then []
    else (if AcceptsForNotIn(vs[0]) then [] else [vs[0]]) + Rejected(vs[1..])
  }

  /** The failure for each of `vs`, position by position. */
  function RejectionsOf(vs: seq<Value>): (fs: seq<ValidationFailure>)
  {
    seq(|vs|, i requires 0 <= i < |vs| => RejectionOf(vs[i]))
  }

  lemma RejectionsOfAppend(xs: seq<Value>, ys: seq<Value>)
    ensures RejectionsOf(xs + ys) == RejectionsOf(xs) + RejectionsOf(ys)
  {
  }

  /**
   * Successive validations on one list keep what was there and append
   * exactly one failure per rejected value, in the order of the calls.
   */
  lemma {:induction false} SuccessiveCalls(fs: seq<ValidationFailure>, vs: seq<Value>)
    ensures AfterCalls(fs, vs) == fs + RejectionsOf(Rejected(vs))
    decreases |vs|
  {
    if vs != [] {
      var head := if AcceptsForNotIn(vs[0]) then [] else [vs[0]];
      SuccessiveCalls(fs + NinFailures(vs[0]), vs[1..]);
      RejectionsOfAppend(head, Rejected(vs[1..]));
      assert RejectionsOf(head) == NinFailures(vs[0]);
    }
  }

  /** Earlier failures are never removed or reordered, and each call adds at most one. */
  lemma SuccessiveCallsKeepEarlierFailures(fs: seq<ValidationFailure>, vs: seq<Value>)
    ensures fs <= AfterCalls(fs, vs)
    ensures |AfterCalls(fs, vs)| == |fs| + |Rejected(vs)| <= |fs| + |vs|
  {
    SuccessiveCalls(fs, vs);
  }

  lemma {:induction false} FirstRejected(vs: seq<Value>, k: nat)
    requires k < |vs| && !AcceptsForNotIn(vs[k])
    requires forall j :: 0 <= j < k ==> AcceptsForNotIn(vs[j])
    ensures Rejected(vs) != [] && Rejected(vs)[0] == vs[k]
    decreases k
  {
    if k > 0 {
      FirstRejected(vs[1..], k - 1);
    }
  }

  /**
   * Starting from an empty list, the first failure after successive
   * validations is the one for the first rejected value.
   */
  lemma FirstFailureIsFirstRejection(vs: seq<Value>, k: nat)
    requires k < |vs| && !AcceptsForNotIn(vs[k])
    requires forall j :: 0 <= j < k ==> AcceptsForNotIn(vs[j])
    ensures AfterCalls([], vs) != [] && AfterCalls([], vs)[0] == RejectionOf(vs[k])
  {
    SuccessiveCalls([], vs);
    FirstRejected(vs, k);
  }

  /** With no rejected value, successive validations leave the list as it was. */
  lemma {:induction false} NoRejectionNoFailure(fs: seq<ValidationFailure>, vs: seq<Value>)
    requires forall i :: 0 <= i < |vs| ==> AcceptsForNotIn(vs[i])
    ensures AfterCalls(fs, vs) == fs
    decreases |vs|
  {
    if vs != [] {
      assert AcceptsForNotIn(vs[0]);
      NoRejectionNoFailure(fs + NinFailures(vs[0]), vs[1..]);
    }
  }
}
