// The id helpers of lib/utils.ts. The random part of an id
// (`Math.random().toString(36).substring(2, 15)`) is a parameter.

module Ids {
  import opened Opt
  import opened Strings
  import opened WebStorage

  const UserIdKey := "mem0_user_id"
  const UserPrefix := "user"

  /** `generateId`: the prefix, a dash, then the random suffix. */
  function GenerateId(prefix: string, suffix: string): (r: string)
    ensures |r| == |prefix| + 1 + |suffix|
    ensures StartsWith(r, prefix + "-") && r[|prefix| + 1..] == suffix
  {
    prefix + "-" + suffix
  }

  /** Ids with the same prefix differ exactly when their suffixes do. */
  lemma GenerateIdInjective(prefix: string, s1: string, s2: string)
    ensures GenerateId(prefix, s1) == GenerateId(prefix, s2) <==> s1 == s2
  {
    if GenerateId(prefix, s1) == GenerateId(prefix, s2) {
      assert s1 == GenerateId(prefix, s1)[|prefix| + 1..];
    }
  }

  /** The id `getUserId` answers with from the stored items: the stored
      one when non-empty, else a fresh 'user-' id. */
  function UserIdFor(items: map<string, string>, suffix: string): (id: string)
    ensures UserIdKey in items && items[UserIdKey] != "" ==> id == items[UserIdKey]
    ensures !(UserIdKey in items && items[UserIdKey] != "") ==> StartsWith(id, "user-")
    ensures id != ""
  {
    if UserIdKey in items && items[UserIdKey] != "" then items[UserIdKey]
    else GenerateId(UserPrefix, suffix)
  }

  /** `getUserId`: '' without a window; otherwise get-or-create. */
  method GetUserId(storage: LocalStorage, hasWindow: bool, suffix: string) returns (id: string)
    modifies storage
    ensures !hasWindow ==> id == "" && storage.items == old(storage.items)
    ensures hasWindow ==> id == UserIdFor(old(storage.items), suffix)
    ensures hasWindow ==> storage.items == old(storage.items)[UserIdKey := id]
  {
    if !hasWindow {
      return "";
    }
    var stored := storage.GetItem(UserIdKey);
    if stored.None? || stored.value == "" {
      id := GenerateId(UserPrefix, suffix);
      storage.SetItem(UserIdKey, id);
    } else {
      id := stored.value;
      assert storage.items == storage.items[UserIdKey := id];
    }
  }

  /** Once `getUserId` has answered, every later call answers the same id,
      whatever random suffix it draws, and leaves the storage as it is. */
  lemma UserIdStable(items: map<string, string>, s1: string, s2: string)
    ensures var id := UserIdFor(items, s1);
            var after := items[UserIdKey := id];
            UserIdFor(after, s2) == id && after[UserIdKey := UserIdFor(after, s2)] == after
  {
  }
}
