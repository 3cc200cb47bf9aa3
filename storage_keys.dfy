// The registry of localStorage keys in lib/storageKeys.ts and the
// clearing of the application's stored data.

module StorageKeys {
  import opened Strings
  import opened WebStorage
  import Streak
  import StreakBadge

  const SpacesDataKey := "openbook_spaces_data"
  const NotebooksDataKey := "openbook_notebooks_data"
  const StudyModesKey := "openbook_study_modes"
  const UserDataKey := "openbook_user_data"
  const JournalEntriesKey := "journalEntries"

  const SidebarStateKey := "sidebar-isOpen"
  const AnimationsPreferenceKey := "enableAnimations"
  const SelectedModelKey := "neuman-selected-model"
  const InstallPromptDismissedKey := "installPromptDismissed"
  const UserIdKey := "mem0_user_id"

  /** `OPENBOOK_STORAGE_KEYS`. */
  const AllKeys: seq<string> := [
    SpacesDataKey, NotebooksDataKey, StudyModesKey, UserDataKey, JournalEntriesKey,
    SidebarStateKey, AnimationsPreferenceKey, SelectedModelKey, InstallPromptDismissedKey, UserIdKey
  ]

  /** `STORAGE_KEY_CATEGORIES.DATA.keys` and `.PREFERENCES.keys`. */
  const DataKeys: seq<string> := [SpacesDataKey, NotebooksDataKey, StudyModesKey, UserDataKey, JournalEntriesKey]
  const PreferenceKeys: seq<string> :=
    [SidebarStateKey, AnimationsPreferenceKey, SelectedModelKey, InstallPromptDismissedKey, UserIdKey]

  /** The prefix of the fallback sweep. */
  const OpenbookPrefix := "openbook_"

  /** The full list is the data keys followed by the preference keys, and
      no key is listed twice. */
  lemma RegistryConsistent()
    ensures AllKeys == DataKeys + PreferenceKeys
    ensures forall i, j :: 0 <= i < j < |AllKeys| ==> AllKeys[i] != AllKeys[j]
  {
    assert AllKeys == DataKeys + PreferenceKeys;
    forall i, j | 0 <= i < j < |AllKeys|
      ensures AllKeys[i] != AllKeys[j]
    {
      if i < 4 && j < 4 {
        assert AllKeys[i][10] != AllKeys[j][10];
      } else {
        assert AllKeys[i][0] != AllKeys[j][0];
      }
    }
  }

  /** No preference key starts with 'openbook_' (each begins with another
      letter), so the fallback sweep never takes one. */
  lemma PreferencesUnprefixed()
    ensures forall k :: k in PreferenceKeys ==> !StartsWith(k, OpenbookPrefix)
  {
    forall k | k in PreferenceKeys
      ensures !StartsWith(k, OpenbookPrefix)
    {
      assert k[0] != OpenbookPrefix[0];
    }
  }

  /** The keys removed by name. */
  function KeysToRemove(clearPreferences: bool): seq<string>
  {
    if clearPreferences then AllKeys else DataKeys
  }

  /** The storage after `clearAllStorageData`: the named keys and every key
      starting with 'openbook_' are gone, everything else is kept. */
  function Cleared(items: map<string, string>, clearPreferences: bool): (r: map<string, string>)
    ensures forall k :: k in r ==> k in items && r[k] == items[k]
  {
    map k | k in items && k !in KeysToRemove(clearPreferences) && !StartsWith(k, OpenbookPrefix) :: items[k]
  }

  /** Full clearing removes every listed key and every prefixed key. */
  lemma ClearAllRemovesListed(items: map<string, string>)
    ensures forall k :: k in AllKeys ==> k !in Cleared(items, true)
    ensures forall k :: StartsWith(k, OpenbookPrefix) ==> k !in Cleared(items, true)
  {
  }

  /** Clearing only the data removes the five data keys, and every stored
      preference keeps its value. */
  lemma ClearDataKeepsPreferences(items: map<string, string>)
    ensures forall k :: k in DataKeys ==> k !in Cleared(items, false)
    ensures forall k :: k in PreferenceKeys && k in items ==> k in Cleared(items, false) && Cleared(items, false)[k] == items[k]
  {
    RegistryConsistent();
    PreferencesUnprefixed();
    forall k | k in PreferenceKeys && k in items
      ensures k in Cleared(items, false)
    {
      var j :| 0 <= j < |PreferenceKeys| && PreferenceKeys[j] == k;
      assert AllKeys[5 + j] == k;
      forall i | 0 <= i < |DataKeys|
        ensures DataKeys[i] != k
      {
        assert AllKeys[i] == DataKeys[i];
      }
    }
  }

  /** A key that is neither listed nor prefixed survives either mode, and a
      second clearing changes nothing. */
  lemma ClearKeepsOthers(items: map<string, string>, clearPreferences: bool)
    ensures forall k :: k in items && k !in AllKeys && !StartsWith(k, OpenbookPrefix) ==>
              k in Cleared(items, clearPreferences) && Cleared(items, clearPreferences)[k] == items[k]
    ensures Cleared(Cleared(items, clearPreferences), clearPreferences) == Cleared(items, clearPreferences)
  {
    RegistryConsistent();
  }

  /** The streak counter's keys are neither listed nor prefixed with
      'openbook_' (they use a dot), so clearing keeps them. */
  lemma StreakKeysSurvive(items: map<string, string>, clearPreferences: bool)
    ensures forall k :: k in {Streak.CountKey, Streak.LastVisitKey, StreakBadge.MilestoneKey} && k in items ==>
              k in Cleared(items, clearPreferences)
  {
    forall k | k in {Streak.CountKey, Streak.LastVisitKey, StreakBadge.MilestoneKey} && k in items
      ensures k in Cleared(items, clearPreferences)
    {
      assert k[8] != OpenbookPrefix[8];
      assert !StartsWith(k, OpenbookPrefix);
      forall i | 0 <= i < |AllKeys|
        ensures AllKeys[i] != k
      {
        if i < 4 {
          assert AllKeys[i][8] != k[8];
        } else {
          assert AllKeys[i][0] != k[0];
        }
      }
    }
  }

  /** `clearAllStorageData`: a loop removing the named keys, then a sweep
      over the remaining keys removing those with the 'openbook_' prefix. */
  method ClearAllStorageData(storage: LocalStorage, clearPreferences: bool)
    modifies storage
    ensures storage.items == Cleared(old(storage.items), clearPreferences)
  {
    var keysToRemove := KeysToRemove(clearPreferences);
    ghost var original := storage.items;
    var i := 0;
    while i < |keysToRemove|
      invariant 0 <= i <= |keysToRemove|
      invariant forall k :: k in storage.items <==> k in original && k !in keysToRemove[..i]
      invariant forall k :: k in storage.items ==> storage.items[k] == original[k]
    {
      storage.RemoveItem(keysToRemove[i]);
      assert keysToRemove[..i + 1] == keysToRemove[..i] + [keysToRemove[i]];
      i := i + 1;
    }
    assert keysToRemove[..i] == keysToRemove;
    var keys := storage.items.Keys;
    while keys != {}
      invariant forall k :: k in storage.items <==>
                  k in original && k !in keysToRemove && (k in keys || !StartsWith(k, OpenbookPrefix))
      invariant forall k :: k in storage.items ==> storage.items[k] == original[k]
      decreases keys
    {
      var k :| k in keys;
      if StartsWith(k, OpenbookPrefix) {
        storage.RemoveItem(k);
      }
      keys := keys - {k};
    }
    assert storage.items == Cleared(original, clearPreferences);
  }
}
