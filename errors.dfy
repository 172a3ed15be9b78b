/**
 * Everything an operation of the system can raise, as one value: the three
 * exception taxonomies and the two Python built-in errors the core raises or
 * lets escape.
 */
module Errors {
  import opened DomainExceptions
  import opened ApplicationExceptions
  import opened InfrastructureExceptions

  datatype Error =
    | ValueError(text: string)
    /** Raised when code looks up an attribute its object does not have: the object's class and the attribute. */
    | AttributeError(owner: string, attribute: string)
    | Domain(domain: DomainException)
    | Application(application: ApplicationException)
    | Infrastructure(infrastructure: InfrastructureException)
  {
    /** `str(e)`. */
    function Str(): string {
      match this
      case ValueError(t) => t
      case AttributeError(o, a) => "'" + o + "' object has no attribute '" + a + "'"
      case Domain(d) => d.Message()
      case Application(a) => a.Message()
      case Infrastructure(i) => i.Message()
    }
  }
}
