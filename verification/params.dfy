/**
 * Strategy parameter dictionaries. Every parameter the strategies read is
 * numeric; a Python `bool` is an `int` (False == 0, True == 1), so a
 * parameter dictionary is a map from key to real.
 */
module Params {
  type ParamMap = map<string, real>

  /** `params.get(key, default)` */
  function Get(m: ParamMap, key: string, default: real): (r: real)
    ensures key in m ==> r == m[key]
    ensures key !in m ==> r == default
  {
    if key in m then m[key] else default
  }

  /**
   * `{**defaults, **user}`, `defaults.update(user)` and a sequence of
   * `user.setdefault(k, defaults[k])` all build the same dictionary: every
   * key of either side, the user's value winning.
   */
  function Merge(defaults: ParamMap, user: ParamMap): (r: ParamMap)
    ensures r.Keys == defaults.Keys + user.Keys
    ensures forall k :: k in user ==> r[k] == user[k]
    ensures forall k :: k in defaults && k !in user ==> r[k] == defaults[k]
  {
    defaults + user
  }

  /** Merging nothing over the defaults leaves the defaults. */
  lemma MergeEmpty(defaults: ParamMap)
    ensures Merge(defaults, map[]) == defaults
  {
  }

  /** User keys the defaults do not have leave every default value as it was. */
  lemma MergeDisjoint(defaults: ParamMap, user: ParamMap)
    requires defaults.Keys !! user.Keys
    ensures forall k :: k in defaults ==> Merge(defaults, user)[k] == defaults[k]
  {
  }
}
