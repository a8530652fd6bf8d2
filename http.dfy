/**
 * The request and response vocabulary shared by the auth middleware and the
 * route handlers: request bodies, the `check(field, msg).not().isEmpty()`
 * validation chains and the status/body pairs the handlers send.
 */
module Http {

  datatype Option<T> = None | Some(value: T)

  /** A parsed JSON request body. Only string-valued fields are modelled. */
  type Body = map<string, string>

  const StatusOk: int := 200
  const StatusBadRequest: int := 400
  const StatusUnauthorized: int := 401
  const StatusNotFound: int := 404
  const StatusServerError: int := 500

  /**
   * JavaScript truthiness of `req.body[key]` for a string field: the key is
   * present and its value is not the empty string. For strings this is also
   * exactly when `check(key).not().isEmpty()` passes (a missing value is
   * validated as "").
   */
  predicate Truthy(body: Body, key: string)
  {
    key in body && body[key] != ""
  }

  /** `req.body[key]` as destructured by a handler: undefined when absent. */
  function Get(body: Body, key: string): (v: Option<string>)
    ensures v.Some? <==> key in body
    ensures v.Some? ==> v.value == body[key]
  {
    if key in body then Some(body[key]) else None
  }

  /** The value a handler copies under `if (value) fields.key = value`. */
  function Field(body: Body, key: string): (v: Option<string>)
    ensures v.Some? <==> Truthy(body, key)
    ensures v.Some? ==> v.value == body[key] && v.value != ""
  {
    if Truthy(body, key) then Some(body[key]) else None
  }

  /** One `check(param, msg).not().isEmpty()` validation chain. */
  datatype Rule = Rule(param: string, msg: string)

  /** One entry of `validationResult(req).array()`. */
  datatype ValidationError = ValidationError(param: string, msg: string)

  /**
   * The aggregated result of running `rules` in order over `body`: every
   * failing rule contributes one error, and no passing rule does.
   */
  function Validate(body: Body, rules: seq<Rule>): (errs: seq<ValidationError>)
    ensures |errs| <= |rules|
    ensures errs == [] <==> forall i | 0 <= i < |rules| :: Truthy(body, rules[i].param)
    ensures forall e | e in errs :: Rule(e.param, e.msg) in rules && !Truthy(body, e.param)
    ensures forall r | r in rules && !Truthy(body, r.param) :: ValidationError(r.param, r.msg) in errs
  {
    if rules == [] then []
    else
      var rest := Validate(body, rules[1..]);
      if Truthy(body, rules[0].param) then rest
      else [ValidationError(rules[0].param, rules[0].msg)] + rest
  }

  /**
   * The errors come one per failing rule and in rule order: running one rule
   * gives its error exactly when it fails, and running two lists of rules
   * one after the other gives the first list's errors followed by the
   * second's. Together these determine `Validate` on every list of rules.
   */
  lemma ValidateOne(body: Body, r: Rule)
    ensures Validate(body, [r]) == if Truthy(body, r.param) then [] else [ValidationError(r.param, r.msg)]
  {
    assert [r][1..] == [];
  }

  lemma {:induction false} ValidateConcat(body: Body, a: seq<Rule>, b: seq<Rule>)
    ensures Validate(body, a + b) == Validate(body, a) + Validate(body, b)
    decreases |a|
  {
    if a == [] {
      assert a + b == b;
    } else {
      assert (a + b)[1..] == a[1..] + b;
      ValidateConcat(body, a[1..], b);
    }
  }

  /**
   * What a handler sends: `res.json({ msg })`, `res.send(text)`,
   * `res.json({ errors })`, or one document or a list of documents as JSON.
   */
  datatype Reply<D> =
    | Msg(msg: string)
    | Text(text: string)
    | Errors(errors: seq<ValidationError>)
    | One(doc: D)
    | Many(docs: seq<D>)

  datatype Response<D> = Response(status: int, reply: Reply<D>)
}
