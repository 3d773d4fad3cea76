/**
 * The small slice of the Java object world that the query layer inspects:
 * a value is either `null` or an object of some runtime class, and the only
 * thing the validators ask of a class is its shape (iterable, array, map or
 * anything else).
 */
module JavaValues {

  /** The shape of a runtime class, as far as the collection test can tell. */
  datatype ValueKind =
    | ListLike      // a java.util.List
    | SetLike       // a java.util.Set
    | OtherIterable // any other java.lang.Iterable
    | MapLike       // a java.util.Map
    | NativeArray   // a Java array, such as int[]
    | StringKind    // java.lang.String
    | IntegerKind   // java.lang.Integer and the other boxed numbers
    | OtherKind     // any other class

  /** A runtime class: its binary name (`Class.getName()`) and its shape. */
  datatype JClass = JClass(name: string, kind: ValueKind)

  /**
   * A Java value. `text` is what `String.valueOf` renders for the object;
   * that rendering belongs to the object's own `toString` and is an input here.
   */
  datatype Value = Null | Obj(cls: JClass, text: string)

  /** `Class.toString()` for the class of an object: "class " followed by its name. */
  function ClassToString(c: JClass): (s: string)
    ensures |s| == 6 + |c.name| && s[6..] == c.name
  {
    "class " + c.name
  }

  /** True when `t` occurs in `s` starting at position `i`. */
  predicate OccursAt(s: string, t: string, i: nat)
  {
    i + |t| <= |s| && s[i..i + |t|] == t
  }

  /** True when `t` occurs somewhere inside `s`. */
  predicate Mentions(s: string, t: string)
  {
    exists i: nat :: i <= |s| && OccursAt(s, t, i)
  }
}
