/** The option and result types shared by every module, and the error exits of the generator. */
module Common {
  datatype Option<+T> = None | Some(value: T)

  /** Why a pass of the generator stopped. `subject` is the offending key or reference. */
  datatype Error =
    | MalformedValue(subject: string)
    | BadEgressKey(subject: string)
    | BadIngressKey(subject: string)
    | BadLocalKey(subject: string)
    | BadCIDRKey(subject: string)
    | BadRuleKey(subject: string)
    | BadPort(subject: string)
    | BadGateway(subject: string)
    | MissingField(subject: string)
    | NotFound(subject: string)
    | Unreadable(subject: string)

  datatype Result<+T> = Ok(value: T) | Err(error: Error)

  /** The elements of a string-keyed map that callers treat as a label or annotation set. */
  type Labels = map<string, string>
}
