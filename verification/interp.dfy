/** Values, errors and the small part of the interpreter state that the bridge layer touches. */
module Interp {

  datatype Option<+T> = None | Some(value: T)

  /** What a full userdata box holds. Only the bridge itself creates an `AsyncPollPending` box;
      ordinary Lua code cannot construct one. */
  datatype Payload = AsyncPollPending | Boxed(tag: nat)

  /** A Lua value. Reference values carry the identity of the object they denote, so structural
      equality of two `Value`s is the interpreter's raw equality (`lua_rawequal`); floating-point
      numbers are not modelled. */
  datatype Value =
    | Nil
    | Boolean(b: bool)
    | Integer(i: int)
    | Str(s: string)
    | LightUserData(ptr: nat)
    | TableRef(table: nat)
    | FunctionRef(fn: nat)
    | ThreadRef(thread: nat)
    | UserData(id: nat, payload: Payload)

  /** The error kinds the bridge reports. */
  datatype Error =
    | RuntimeError(message: string)
    | CoroutineInactive
    | RecursiveMutCallback
    | CallbackDestructed
    | FromLuaConversionError(from: string, to: string)
    | ExternalError(message: string)

  datatype Result<+T> = Ok(value: T) | Err(error: Error)

  /** A task waker, modelled as an opaque token. */
  type Waker = nat

  /** The interpreter state shared by all handles: the registry slots that `LuaRef`s and
      `RegistryKey`s index, and the registry entry under the waker key. */
  class Lua {
    var registry: map<int, Value>
    var wakerSlot: Option<Waker>

    constructor ()
      ensures registry == map[] && wakerSlot == None
    {
      registry := map[];
      wakerSlot := None;
    }
  }

  /** Lua's name for the type of a value, as used in its error messages. */
  function TypeName(v: Value): string {
    match v
    case Nil => "nil"
    case Boolean(_) => "boolean"
    case Integer(_) => "number"
    case Str(_) => "string"
    case LightUserData(_) => "userdata"
    case TableRef(_) => "table"
    case FunctionRef(_) => "function"
    case ThreadRef(_) => "thread"
    case UserData(_, _) => "userdata"
  }
}
