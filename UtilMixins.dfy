/**
 * The `NiceRepr` mixin: `str` and `repr` of an object built from its
 * class name and the text its `__nice__` method returns.
 */
module UtilMixins {
  import opened Wrappers
  import opened PyStr

  /** What asking an object for `__nice__()` gives. */
  datatype NiceOutcome =
    | Returns(text: string)    // the method exists and returns this text
    | Missing                  // the object has no `__nice__` attribute
    | Raises(err: Error)       // the method exists and raises

  /**
   * An object that mixes in `NiceRepr`: its module and class name, its
   * `__nice__` behaviour, and the hexadecimal text of its `id`.
   */
  datatype NiceObject = NiceObject(moduleName: string, className: string, nice: NiceOutcome, address: string)

  /** `object.__repr__`, which `object.__str__` also returns. */
  function ObjectRepr(o: NiceObject): string {
    "<" + o.moduleName + "." + o.className + " object at " + o.address + ">"
  }

  /** `NiceRepr.__str__` */
  function Str(o: NiceObject): (r: Result<string>)
    ensures r.Err? <==> o.nice.Raises?
    ensures r.Err? ==> r.error == o.nice.err
    ensures o.nice.Missing? ==> r == Ok(ObjectRepr(o))
  {
    match o.nice
    case Returns(text) => Ok("<" + o.className + "(" + text + ")>")
    case Missing => Ok(ObjectRepr(o))
    case Raises(err) => Err(err)
  }

  /** `NiceRepr.__repr__` */
  function Repr(o: NiceObject): (r: Result<string>)
    ensures r.Err? <==> o.nice.Raises?
    ensures r.Err? ==> r.error == o.nice.err
    ensures o.nice.Missing? ==> r == Ok(ObjectRepr(o))
  {
    match o.nice
    case Returns(text) => Ok("<" + o.className + "(" + text + ") at " + o.address + ">")
    case Missing => Ok(ObjectRepr(o))
    case Raises(err) => Err(err)
  }

  /** The nice text read back out of a `str` result for a given class name. */
  function NiceFromStr(className: string, s: string): Option<string> {
    if |s| >= |className| + 4 && StartsWith(s, "<" + className + "(") && EndsWith(s, ")>")
    then Some(s[|className| + 2..|s| - 2])
    else None
  }

  /** `str` is `<Class(nice)>`, from which the nice text can be read back. */
  lemma StrRoundTrip(o: NiceObject)
    requires o.nice.Returns?
    ensures Str(o).Ok?
    ensures NiceFromStr(o.className, Str(o).value) == Some(o.nice.text)
  {
    var s := Str(o).value;
    assert s == "<" + o.className + "(" + o.nice.text + ")>";
    assert s[..|o.className| + 2] == "<" + o.className + "(";
    assert s[|s| - 2..] == ")>";
    assert s[|o.className| + 2..|s| - 2] == o.nice.text;
  }

  /** `repr` is `str` with ` at <address>` put before the closing `>`; without `__nice__` they agree. */
  lemma ReprExtendsStr(o: NiceObject)
    requires !o.nice.Raises?
    ensures Str(o).Ok? && Repr(o).Ok?
    ensures o.nice.Returns? ==>
              var s := Str(o).value;
              Repr(o).value == s[..|s| - 1] + " at " + o.address + ">"
    ensures o.nice.Missing? ==> Repr(o) == Str(o)
  {
    if o.nice.Returns? {
      var s := Str(o).value;
      assert s[..|s| - 1] == "<" + o.className + "(" + o.nice.text + ")";
    }
  }

  /** `s` occurs somewhere in `t`. */
  predicate Contains(t: string, s: string) {
    exists i :: 0 <= i <= |t| && StartsWith(t[i..], s)
  }

  /** The class docstring's example: a class without `__nice__` falls back to `object`'s text. */
  lemma MissingNiceShowsObject(o: NiceObject)
    requires o.nice.Missing?
    ensures Str(o).Ok? && Contains(Str(o).value, "object at")
    ensures Repr(o).Ok? && Contains(Repr(o).value, "object at")
  {
    var s := Str(o).value;
    var i := 1 + |o.moduleName| + 1 + |o.className| + 1;
    assert s == "<" + o.moduleName + "." + o.className + " " + "object at" + " " + o.address + ">";
    assert s[i..] == "object at" + " " + o.address + ">";
    assert StartsWith(s[i..], "object at");
  }

  /** The class docstring's example: `__nice__` returning `info` on class `Bar`. */
  lemma BarExample(moduleName: string, address: string)
    ensures Str(NiceObject(moduleName, "Bar", Returns("info"), address)) == Ok("<Bar(info)>")
    ensures Repr(NiceObject(moduleName, "Bar", Returns("info"), address)).Ok?
    ensures StartsWith(Repr(NiceObject(moduleName, "Bar", Returns("info"), address)).value, "<Bar(info) at ")
  {
    var s := Str(NiceObject(moduleName, "Bar", Returns("info"), address)).value;
    assert s == "<" + "Bar" + "(" + "info" + ")>";
    assert |s| == 11;
    assert forall k :: 0 <= k < 11 ==> s[k] == "<Bar(info)>"[k];
    assert s == "<Bar(info)>";
    var r := Repr(NiceObject(moduleName, "Bar", Returns("info"), address)).value;
    assert r == "<Bar(info) at " + address + ">";
    assert r[..|"<Bar(info) at "|] == "<Bar(info) at ";
  }
}
