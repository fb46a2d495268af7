/** The two kinds of failure the contract layer raises: a configuration error
    (`LazyContractError`) for misuse of the API, and a validation error
    (`LazyContractValidationError`) for data that does not fit a contract. */
module Errors {

  /** The message of a validation error, without its text formatting. */
  datatype Reason =
    | NotNone(name: string)      // "<name> must not be None"
    | AttrType                   // "value <repr> is not of type <type>"
    | Required(name: string)     // "'<name>' not found in <repr>"
    | InvalidAttr(key: string)   // "no attribute '<key>'"
    | NotADict                   // "'<obj>' is not a dictionary"
    | Foreign(text: string)      // str(e) of another exception raised while deserializing

  /** The reasons for which a configuration error is raised. */
  datatype Misuse = DefaultForRequired | BothObjAndKwargs

  datatype Failure =
      /** `LazyContractError(...)` */
    | ConfigError(misuse: Misuse)
      /** `LazyContractValidationError(that, path, msg)`; `owner` is the class
          name of `that`: the contract, or the property for a failed `validate`. */
    | ValidationError(owner: string, path: string, reason: Reason)
      /** Any other exception, such as one raised by a type's constructor. */
    | OtherError(text: string)

  datatype Result<T> = Ok(value: T) | Err(failure: Failure)

  /** `str(e)` for the failures that are not validation errors. */
  function Text(f: Failure): string
    requires !f.ValidationError?
  {
    match f
    case ConfigError(DefaultForRequired) => "default specified for required property"
    case ConfigError(BothObjAndKwargs) => "both _obj and kwargs provided"
    case OtherError(t) => t
  }

  /** How a contract re-raises a failure of the deserialization of its field
      `key`: a validation error of the contract itself whose path is `"." + key`
      followed by the inner path, keeping the inner message; any other failure
      becomes a validation error whose message is its text. */
  function Rewrap(owner: string, key: string, f: Failure): (r: Failure)
    ensures r.ValidationError? && r.owner == owner
    ensures f.ValidationError? ==> r.path == "." + key + f.path && r.reason == f.reason
    ensures !f.ValidationError? ==> r.path == "." + key && r.reason == Foreign(Text(f))
  {
    match f
    case ValidationError(_, path, reason) =>
      ValidationError(owner, "." + key + path, reason)
    case _ => ValidationError(owner, "." + key, Foreign(Text(f)))
  }
}
