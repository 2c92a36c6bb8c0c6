/**
 * Unwrappers: functions that extract the payload of a wrapper value (a
 * page, a result envelope) before translation. They are tried in
 * registration order and the first one that yields a payload wins.
 */
module Unwrapper {
  import opened Wrappers
  import opened Values
  import opened Errors

  /** An unwrapper answers with a payload, with nothing (nil), or with an error. */
  type UnWrapFn = Value -> Result<Option<Value>, Error>

  /** The unwrapper gave a non-nil payload and no error. */
  predicate Succeeds(u: UnWrapFn, v: Value) {
    u(v).Success? && u(v).value.Some?
  }

  /** tryUnwrap: the payload of the first unwrapper that succeeds; errors and nil payloads are passed over. */
  function FirstUnwrap(us: seq<UnWrapFn>, v: Value): (r: Option<Value>)
    ensures r.None? <==> forall k :: 0 <= k < |us| ==> !Succeeds(us[k], v)
  {
    if |us| == 0 then None
    else if Succeeds(us[0], v) then us[0](v).value
    else
      var r := FirstUnwrap(us[1..], v);
      assert forall k :: 1 <= k < |us| ==> us[k] == us[1..][k - 1];
      r
  }

  /** The unwrapper that wins is the first in registration order that succeeds. */
  lemma {:induction false} FirstUnwrapPicksFirst(us: seq<UnWrapFn>, v: Value, k: nat)
    requires k < |us| && Succeeds(us[k], v)
    requires forall j :: 0 <= j < k ==> !Succeeds(us[j], v)
    ensures FirstUnwrap(us, v) == us[k](v).value
  {
    if k > 0 {
      assert forall j :: 0 <= j < k - 1 ==> us[1..][j] == us[j + 1];
      FirstUnwrapPicksFirst(us[1..], v, k - 1);
    }
  }

  /** Registering one more unwrapper never overrides an earlier one that succeeds. */
  lemma {:induction false} AppendedUnwrapperIsLast(us: seq<UnWrapFn>, u: UnWrapFn, v: Value)
    ensures FirstUnwrap(us, v).Some? ==> FirstUnwrap(us + [u], v) == FirstUnwrap(us, v)
    ensures FirstUnwrap(us, v).None? ==>
      FirstUnwrap(us + [u], v) == (if Succeeds(u, v) then u(v).value else None)
  {
    if |us| > 0 {
      assert (us + [u])[1..] == us[1..] + [u];
      AppendedUnwrapperIsLast(us[1..], u, v);
    }
  }
}
