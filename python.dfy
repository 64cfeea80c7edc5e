/**
 * The slice of Python's runtime that the data-access decorators inspect:
 * the values passed as arguments, the exception classes they catch, and
 * the two ways a call can end (return a value or raise an exception).
 */
module Python {

  datatype Option<+T> = None | Some(value: T)

  /** What a Python function that returns a `T` or raises does. */
  datatype Result<+T> = Ok(value: T) | Err(error: Error)

  /**
   * A Python value, as far as the decorators look into it. `RowV` is a
   * `sqlite3.Row` (column names with values, in column order) and `ObjectV`
   * stands for any other object, known by its identity and the names of its
   * attributes (`hasattr`).
   */
  datatype Value =
    | NoneV
    | BoolV(b: bool)
    | IntV(i: int)
    | StrV(s: string)
    | ListV(items: seq<Value>)
    | TupleV(items: seq<Value>)
    | DictV(entries: map<string, Value>)
    | RowV(columns: seq<(string, Value)>)
    | ObjectV(id: nat, attrs: set<string>)

  /** Python truthiness (`bool(v)`). */
  predicate Truthy(v: Value) {
    match v
    case NoneV => false
    case BoolV(b) => b
    case IntV(i) => i != 0
    case StrV(s) => s != ""
    case ListV(xs) => xs != []
    case TupleV(xs) => xs != []
    case DictV(m) => m != map[]
    case RowV(cs) => cs != []
    case ObjectV(_, _) => true
  }

  /** `isinstance(v, (tuple, list, dict))`, the test used to recognise query parameters. */
  predicate IsParamsContainer(v: Value) {
    v.ListV? || v.TupleV? || v.DictV?
  }

  /**
   * `hasattr(v, name)`. Of the built-in values only dicts and `sqlite3.Row`
   * objects are asked about an attribute (`keys`); any other object answers
   * from its attribute names.
   */
  predicate HasAttr(v: Value, name: string) {
    match v
    case DictV(_) => name == "keys"
    case RowV(_) => name == "keys"
    case ObjectV(_, attrs) => name in attrs
    case _ => false
  }

  /** `kwargs.get(name)`: the value, or None when the keyword is absent. */
  function Get(kwargs: map<string, Value>, name: string): Value {
    if name in kwargs then kwargs[name] else NoneV
  }

  /**
   * `kwargs.get(n0) or kwargs.get(n1) or ...`: Python's `or` yields the first
   * truthy operand, or the last operand when none is truthy.
   */
  function GetFirstTruthy(kwargs: map<string, Value>, names: seq<string>): (v: Value)
    requires names != []
    ensures Truthy(v) <==> exists i :: 0 <= i < |names| && Truthy(Get(kwargs, names[i]))
    ensures Truthy(v) ==>
      exists i :: 0 <= i < |names| && v == Get(kwargs, names[i]) && forall j :: 0 <= j < i ==> !Truthy(Get(kwargs, names[j]))
    ensures !Truthy(v) ==> v == Get(kwargs, names[|names| - 1])
  {
    if |names| == 1 then Get(kwargs, names[0])
    else if Truthy(Get(kwargs, names[0])) then Get(kwargs, names[0])
    else
      var rest := GetFirstTruthy(kwargs, names[1..]);
      assert forall i :: 1 <= i < |names| ==> names[i] == names[1..][i - 1];
      rest
  }

  /** The exception classes that occur in the decorators, with Python's hierarchy. */
  datatype ErrorClass =
    | BaseException
    | KeyboardInterrupt
    | Exception
    | SqliteError        // sqlite3.Error
    | DatabaseError      // sqlite3.DatabaseError
    | OperationalError   // sqlite3.OperationalError
    | IntegrityError     // sqlite3.IntegrityError
    | OSError
    | ConnectionError
    | TimeoutError
    | ValueError
    | KeyError
    | IndexError
    | AttributeError
    | TypeError
    | RuntimeError

  /** The direct base class; `BaseException` has none. */
  function Base(c: ErrorClass): Option<ErrorClass> {
    match c
    case BaseException => None
    case KeyboardInterrupt => Some(BaseException)
    case Exception => Some(BaseException)
    case SqliteError => Some(Exception)
    case DatabaseError => Some(SqliteError)
    case OperationalError => Some(DatabaseError)
    case IntegrityError => Some(DatabaseError)
    case OSError => Some(Exception)
    case ConnectionError => Some(OSError)
    case TimeoutError => Some(OSError)
    case ValueError => Some(Exception)
    case KeyError => Some(Exception)
    case IndexError => Some(Exception)
    case AttributeError => Some(Exception)
    case TypeError => Some(Exception)
    case RuntimeError => Some(Exception)
  }

  /** Distance from `BaseException`; it strictly decreases along `Base`. */
  function Rank(c: ErrorClass): nat {
    match c
    case BaseException => 0
    case KeyboardInterrupt => 1
    case Exception => 1
    case OperationalError => 4
    case IntegrityError => 4
    case DatabaseError => 3
    case ConnectionError => 3
    case TimeoutError => 3
    case _ => 2
  }

  /** `issubclass(c, d)`. */
  predicate IsSubclass(c: ErrorClass, d: ErrorClass)
    decreases Rank(c)
  {
    c == d || (Base(c).Some? && IsSubclass(Base(c).value, d))
  }

  datatype Error = PyError(cls: ErrorClass, message: string)

  /** `isinstance(e, classes)` for a tuple of exception classes. */
  predicate IsInstance(e: Error, classes: set<ErrorClass>) {
    exists c :: c in classes && IsSubclass(e.cls, c)
  }

  /** What an `except Exception` clause catches: everything but KeyboardInterrupt and BaseException itself. */
  predicate IsException(e: Error) {
    IsSubclass(e.cls, Exception)
  }

  /** How a call ends: it returns a value or raises an exception. */
  datatype Outcome = Returned(value: Value) | Raised(error: Error)

  /** Exact-type membership implies `isinstance`: the class is a subclass of itself. */
  lemma ExactTypeIsInstance(e: Error, classes: set<ErrorClass>)
    requires e.cls in classes
    ensures IsInstance(e, classes)
  {
    assert IsSubclass(e.cls, e.cls);
  }
}
