/** The process-wide property-name symbols of `MapserverError::Init`
    (src/error.cpp).  In the host they are persistent interned strings; here a
    registry is the value holding them. */
module Registry {

  /** The name of the property `Exception::Error` itself sets from its argument. */
  const MESSAGE: string := "message"

  /** The seven symbols: the type tag stored under `name`, and the six property names. */
  datatype Symbols = Symbols(
    tag: string,
    name: string,
    code: string,
    category: string,
    routine: string,
    isReported: string,
    errorStack: string)

  /** Every property name an exported error is written under, `message` first. */
  function PropertyNames(s: Symbols): seq<string>
  {
    [MESSAGE, s.name, s.code, s.category, s.routine, s.isReported, s.errorStack]
  }

  /** No two properties share a name, so no property write overwrites another. */
  predicate Distinct(s: Symbols)
  {
    var names := PropertyNames(s);
    forall i, j :: 0 <= i < j < |names| ==> names[i] != names[j]
  }

  /** The registry after `Init`. */
  function Init(): (s: Symbols)
    ensures s.tag == "MapserverError"
    ensures s.name == "name" && s.code == "code" && s.category == "category"
    ensures s.routine == "routine" && s.isReported == "isReported" && s.errorStack == "errorStack"
    ensures Distinct(s)
  {
    Symbols("MapserverError", "name", "code", "category", "routine", "isReported", "errorStack")
  }
}
