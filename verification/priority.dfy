/** A reference definition of "the first alternative that applies", used to
    state every priority-ordered `if`/`elif` chain of the scripts
    independently of how the chain is written. */
module Priority {
  import opened Wrappers

  /** No candidate before position `k` is present. */
  predicate AbsentBefore<T>(candidates: seq<Option<T>>, k: int)
    requires 0 <= k <= |candidates|
  {
    forall j | 0 <= j < k :: candidates[j].None?
  }

  /** Position of the first present candidate, or `|candidates|` if none is. */
  function FirstPresentIndex<T>(candidates: seq<Option<T>>): (k: nat)
    ensures k <= |candidates|
    ensures AbsentBefore(candidates, k)
    ensures k < |candidates| ==> candidates[k].Some?
  {
    if |candidates| == 0 then 0
    else if candidates[0].Some? then 0
    else 1 + FirstPresentIndex(candidates[1..])
  }

  /** The value of the first present candidate, or `fallback` when none is present. */
  function FirstPresent<T>(candidates: seq<Option<T>>, fallback: T): T
  {
    var k := FirstPresentIndex(candidates);
    if k < |candidates| then candidates[k].value else fallback
  }

  /** The first-present position is the only position with the defining
      property, so `FirstPresent` is determined by it. */
  lemma FirstPresentUnique<T>(candidates: seq<Option<T>>, k: nat)
    requires k <= |candidates| && AbsentBefore(candidates, k)
    requires k < |candidates| ==> candidates[k].Some?
    ensures k == FirstPresentIndex(candidates)
  {
  }
}
