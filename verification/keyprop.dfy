/** `key_property` (pupil_audio/utils/__init__.py, and its verbatim copy at
    the top of examples/pyaudio_in_pyav_out_api.py): a property that reads
    and writes one key of a dict-backed record, with an optional default,
    an optional type check and a read-only mode. Python values are reduced
    to the kinds the records hold. */
module KeyProperty {
  import opened Wrappers
  import Strings

  /** A Python value of one of the kinds the modelled code handles. */
  datatype Value = VNone | VBool(b: bool) | VInt(i: int) | VStr(s: string)

  /** The classes a property can be asked to check against. */
  datatype PyType = NoneType | Bool | Int | Str

  /** `isinstance(v, t)`; a bool is also an int. */
  predicate IsInstance(v: Value, t: PyType)
  {
    match t
    case NoneType => v.VNone?
    case Bool => v.VBool?
    case Int => v.VInt? || v.VBool?
    case Str => v.VStr?
  }

  /** Python truth value. */
  predicate Truthy(v: Value)
  {
    match v
    case VNone => false
    case VBool(b) => b
    case VInt(i) => i != 0
    case VStr(s) => |s| > 0
  }

  /** `str(v)` */
  function ToStr(v: Value): string
  {
    match v
    case VNone => "None"
    case VBool(b) => if b then "True" else "False"
    case VInt(i) => Strings.IntToString(i)
    case VStr(s) => s
  }

  /** A record backing the properties: its keys and values. */
  type Record = map<string, Value>

  /** The configured property: its key, whether it is read-only, its
      default if one was supplied (which may itself be `None`), and the
      class values are checked against if one was supplied. */
  datatype Property = Property(key: string, readonly: bool, default: Option<Value>, klass: Option<PyType>)

  /** `key_property(key, **kwargs)`: `readonly` defaults to False and must
      be a bool; `default` and `type` are taken only when supplied. */
  function Make(key: string, readonly: Option<Value>, default: Option<Value>, klass: Option<PyType>): (r: Result<Property>)
    ensures r.Ok? <==> readonly.None? || readonly.value.VBool?
    ensures r.Err? ==> r.error == AssertionError
    ensures r.Ok? ==> && r.value.key == key && r.value.default == default && r.value.klass == klass
                      && (r.value.readonly <==> readonly == Some(VBool(true)))
  {
    match readonly
    case None => Ok(Property(key, false, default, klass))
    case Some(VBool(b)) => Ok(Property(key, b, default, klass))
    case Some(_) => Err(AssertionError)
  }

  /** The getter: the stored value; on a missing key the default if one was
      supplied, otherwise the KeyError propagates. */
  function Get(p: Property, d: Record): (r: Result<Value>)
    ensures p.key in d ==> r == Ok(d[p.key])
    ensures p.key !in d && p.default.Some? ==> r == Ok(p.default.value)
    ensures r.Err? <==> p.key !in d && p.default.None?
    ensures r.Err? ==> r.error == KeyError
  {
    if p.key in d then Ok(d[p.key])
    else if p.default.Some? then Ok(p.default.value)
    else Err(KeyError)
  }

  /** The setter: a read-only property has none, so assignment raises
      AttributeError; a supplied class is checked first (TypeError); then
      the value is stored under the key. */
  function Set(p: Property, d: Record, v: Value): (r: Result<Record>)
    ensures p.readonly ==> r == Err(AttributeError)
    ensures !p.readonly && p.klass.Some? && !IsInstance(v, p.klass.value) ==> r == Err(TypeError)
    ensures r.Ok? <==> !p.readonly && (p.klass.None? || IsInstance(v, p.klass.value))
    ensures r.Ok? ==> p.key in r.value && r.value[p.key] == v
    ensures r.Ok? ==> forall k :: k != p.key ==> (k in r.value <==> k in d) && (k in d ==> r.value[k] == d[k])
  {
    if p.readonly then Err(AttributeError)
    else if p.klass.Some? && !IsInstance(v, p.klass.value) then
      Err(TypeError)
    else Ok(d[p.key := v])
  }

  /** `del record.prop`: neither kind of property has a deleter. */
  function Delete(p: Property, d: Record): (r: Result<Record>)
    ensures r == Err(AttributeError)
  {
    Err(AttributeError)
  }

  /** A successful set is seen by the next get, whatever the default; and
      a property on another key reads the same as before. */
  lemma GetAfterSet(p: Property, q: Property, d: Record, v: Value)
    requires Set(p, d, v).Ok?
    ensures Get(p, Set(p, d, v).value) == Ok(v)
    ensures q.key != p.key ==> Get(q, Set(p, d, v).value) == Get(q, d)
  {
  }

  /** Setting a writable, unchecked property twice keeps only the second
      value, and setting the value a get just returned changes nothing. */
  lemma SetSetAndSetGet(p: Property, d: Record, v: Value, w: Value)
    requires !p.readonly && p.klass.None?
    ensures Set(p, Set(p, d, v).value, w) == Set(p, d, w)
    ensures p.key in d ==> Set(p, d, Get(p, d).value) == Ok(d)
  {
    assert d[p.key := v][p.key := w] == d[p.key := w];
    if p.key in d {
      assert d[p.key := d[p.key]] == d;
    }
  }

  /** What a property made by `key_property` can do, by its options: a
      read-only one only reads, a writable one reads and writes, and
      neither deletes. */
  lemma Capabilities(key: string, readonly: bool, default: Option<Value>, klass: Option<PyType>, d: Record, v: Value)
    ensures Make(key, Some(VBool(readonly)), default, klass).Ok?
    ensures var p := Make(key, Some(VBool(readonly)), default, klass).value;
            && (readonly ==> Set(p, d, v) == Err(AttributeError))
            && (!readonly && klass.None? ==> Set(p, d, v).Ok?)
            && Delete(p, d).Err?
    ensures Make(key, None, default, klass).value.readonly == false
  {
  }
}
