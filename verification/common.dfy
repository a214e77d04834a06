/** Small shared vocabulary: optional values, the outcome of an awaited call,
    and a deterministic stand-in for the random id generators. */
module Common {

  /** A value that may be absent (TypeScript's `undefined` / `null`). */
  datatype Option<+T> = None | Some(value: T) {

    /** The carried value, or `default` when absent. */
    function GetOr(default: T): T {
      match this
      case Some(v) => v
      case None => default
    }
  }

  /** How an awaited call (a store update, a store delete, an `onSubmit`
      callback) completed: normally, or by throwing an error whose `message`
      may be empty. */
  datatype Outcome = Succeeded | Failed(message: string)

  /** JavaScript's `err.message || fallback`: an empty message is falsy, so
      the fallback text is shown instead. */
  function ErrorText(message: string, fallback: string): (r: string)
    ensures message != "" ==> r == message
    ensures message == "" ==> r == fallback
    ensures fallback != "" ==> r != ""
  {
    if message != "" then message else fallback
  }

  /** The length of the longest string in `ids` (0 for none). */
  function MaxLength(ids: seq<string>): (r: nat)
    ensures forall i :: 0 <= i < |ids| ==> |ids[i]| <= r
    ensures |ids| > 0 ==> exists i :: 0 <= i < |ids| && |ids[i]| == r
  {
    if ids == [] then 0
    else
      var rest := MaxLength(ids[1..]);
      if |ids[0]| >= rest then |ids[0]| else rest
  }

  /** A string of `n` copies of `c`. */
  function Repeat(c: char, n: nat): (r: string)
    ensures |r| == n
    ensures forall i :: 0 <= i < n ==> r[i] == c
  {
    if n == 0 then "" else [c] + Repeat(c, n - 1)
  }

  /** One fresh-id source that can be injected where the program calls a
      random UUID generator: a string strictly longer than every id in use. */
  function FreshId(used: seq<string>): (r: string)
    ensures r !in used
    ensures r != ""
  {
    Repeat('x', MaxLength(used) + 1)
  }
}
