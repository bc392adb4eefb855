/**
 * The browser pieces the storefront's decision logic touches: JavaScript
 * truthiness of optional strings, the `localStorage` key/value store, and the
 * observable effects an event handler produces, in program order.
 */
module Js {
  import opened Wrappers

  /** `localStorage`: string keys to string values. */
  type Store = map<string, string>

  // The keys the session code reads and writes.
  const AccessToken := "access_token"
  const Authorization := "authorization"
  const UserId := "user_id"
  const UserEmail := "user_email"
  const UserName := "user_name"
  const UserIsAdmin := "user_isAdmin"
  const UserPhone := "user_phone"
  const UserAddress := "user_address"

  /** `localStorage.getItem(key)`: `null` (None) for an absent key. */
  function GetItem(s: Store, key: string): Option<string> {
    if key in s then Some(s[key]) else None
  }

  /** `!!v` for a string that may be null/undefined: only a non-empty string is truthy. */
  predicate Truthy(v: Option<string>) {
    v.Some? && v.value != ""
  }

  /**
   * Ant Design's `required` rule on a text field: the value is present and
   * not the empty string. A blank of spaces passes; the rule does not trim.
   */
  predicate Required(value: Option<string>) {
    value.Some? && value.value != ""
  }

  /** `a || b` for possibly-undefined strings. */
  function Or(a: Option<string>, b: Option<string>): Option<string> {
    if Truthy(a) then a else b
  }

  /** `a || ''`. */
  function OrEmpty(a: Option<string>): string {
    if Truthy(a) then a.value else ""
  }

  /** `String(v)` as `setItem` applies it: undefined is stored as the text "undefined". */
  function ToStr(v: Option<string>): string {
    if v.Some? then v.value else "undefined"
  }

  /** `b.toString()` for a boolean. */
  function BoolStr(b: bool): string {
    if b then "true" else "false"
  }

  /** What an event handler does that the decision logic cares about, in order. */
  datatype Effect =
    | SetItem(key: string, value: string)  // localStorage.setItem
    | Clear                                // localStorage.clear
    | DispatchAuthChange                   // window.dispatchEvent(new Event('auth-change'))
    | Navigate(path: string)               // router navigate(path)
    | HardRedirect(path: string)           // window.location.href = path
    | ToastError(message: string)
    | ToastSuccess(message: string)
    | ToastWarning(message: string)
    | SetError(message: string)            // the component's error state
    | RefreshCartCount                     // refreshCartCount(): the navigation bar refetches its badge

  /** The store after one effect. */
  function Step(s: Store, e: Effect): Store {
    match e
    case SetItem(k, v) => s[k := v]
    case Clear => map[]
    case _ => s
  }

  /** The store after a whole trace, applied left to right. */
  function Run(s: Store, t: seq<Effect>): Store
    decreases |t|
  {
    if |t| == 0 then s else Run(Step(s, t[0]), t[1..])
  }

  /** A trace that neither writes nor clears the store. */
  predicate ReadOnly(t: seq<Effect>) {
    forall i :: 0 <= i < |t| ==> !t[i].SetItem? && !t[i].Clear?
  }

  /** Running a trace in two pieces is running it whole. */
  lemma {:induction false} RunAppend(s: Store, a: seq<Effect>, b: seq<Effect>)
    ensures Run(s, a + b) == Run(Run(s, a), b)
    decreases |a|
  {
    if |a| == 0 {
      assert a + b == b;
    } else {
      assert (a + b)[0] == a[0];
      assert (a + b)[1..] == a[1..] + b;
      RunAppend(Step(s, a[0]), a[1..], b);
    }
  }

  /** A read-only trace leaves the store as it was. */
  lemma {:induction false} RunReadOnly(s: Store, t: seq<Effect>)
    requires ReadOnly(t)
    ensures Run(s, t) == s
    decreases |t|
  {
    if |t| > 0 {
      assert !t[0].SetItem? && !t[0].Clear?;
      assert ReadOnly(t[1..]) by {
        forall i | 0 <= i < |t[1..]| ensures !t[1..][i].SetItem? && !t[1..][i].Clear? {
          assert t[1..][i] == t[i + 1];
        }
      }
      RunReadOnly(s, t[1..]);
    }
  }

  /** A trace that clears the store and then only reads ends with an empty store. */
  lemma ClearThenReadOnly(s: Store, t: seq<Effect>)
    requires ReadOnly(t)
    ensures Run(s, [Clear] + t) == map[]
  {
    assert ([Clear] + t)[1..] == t;
    RunReadOnly(map[], t);
  }
}
