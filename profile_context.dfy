/** The current-profile selection shared by the signed-in pages: which of the user's profiles is
    current, remembered across visits by its id under one key of the browser's local storage. */
module ProfileContext {
  import opened Common
  import opened Profiles

  /** The storage key that holds the current profile's id. */
  const CurrentProfileKey := "isaraya_current_profile_id"

  /** Local storage: string keys to string values. */
  type Storage = map<string, string>

  /** `localStorage.getItem(key)`, `None` standing for null. */
  function GetItem(storage: Storage, key: string): (r: Option<string>)
    ensures r.Some? <==> key in storage
    ensures r.Some? ==> r.value == storage[key]
  {
    if key in storage then Some(storage[key]) else None
  }

  /** The profile the selection effect picks from a non-empty list: the one whose id is saved,
      when a non-empty id is saved and some profile has it, else the first. */
  function SelectedProfile(profiles: seq<Profile>, saved: Option<string>): (p: Profile)
    requires |profiles| > 0
    ensures p in profiles
    ensures saved.Some? && saved.value != "" && (exists i :: 0 <= i < |profiles| && profiles[i].id == saved.value)
      ==> p.id == saved.value
    ensures saved.None? || saved.value == "" || (forall i :: 0 <= i < |profiles| ==> profiles[i].id != saved.value)
      ==> p == profiles[0]
  {
    if saved.Some? && saved.value != "" then
      FindSpec(profiles, (q: Profile) => q.id == saved.value);
      match Find(profiles, (q: Profile) => q.id == saved.value)
      case Some(q) => q
      case None => profiles[0]
    else profiles[0]
  }

  /** With several profiles holding the saved id, the first of them is picked, as `find` does. */
  lemma SelectedIsFirstMatch(profiles: seq<Profile>, saved: string, i: nat)
    requires saved != "" && i < |profiles| && profiles[i].id == saved
    requires forall j :: 0 <= j < i ==> profiles[j].id != saved
    ensures SelectedProfile(profiles, Some(saved)) == profiles[i]
  {
    FindFirst(profiles, (q: Profile) => q.id == saved, i);
  }

  /** The store after `setCurrentProfile`: the id written under the key, or the key removed. */
  function StoreAfterSet(storage: Storage, profile: Option<Profile>): (s: Storage)
    ensures profile.Some? ==> CurrentProfileKey in s && s[CurrentProfileKey] == profile.value.id
    ensures profile.None? ==> CurrentProfileKey !in s
    ensures forall k :: k != CurrentProfileKey ==> (k in s <==> k in storage)
    ensures forall k :: k != CurrentProfileKey && k in s ==> s[k] == storage[k]
  {
    match profile
    case Some(p) => storage[CurrentProfileKey := p.id]
    case None => storage - {CurrentProfileKey}
  }

  /** No two profiles of the list share an id. */
  predicate IdsDistinct(profiles: seq<Profile>) {
    forall i, j :: 0 <= i < j < |profiles| ==> profiles[i].id != profiles[j].id
  }

  /** Choosing a profile and loading again restores it: the id written by `setCurrentProfile` makes
      the selection effect pick that same profile, provided ids are distinct and non-empty. */
  lemma ChosenProfileRestored(profiles: seq<Profile>, storage: Storage, p: Profile)
    requires p in profiles && IdsDistinct(profiles) && p.id != ""
    ensures SelectedProfile(profiles, GetItem(StoreAfterSet(storage, Some(p)), CurrentProfileKey)) == p
  {
    var i :| 0 <= i < |profiles| && profiles[i] == p;
    FindFirst(profiles, (q: Profile) => q.id == p.id, i);
  }

  /** The profile whose id is "" is never restored: it is saved, but "" reads as no saved id. */
  lemma EmptyIdNotRestored(profiles: seq<Profile>, storage: Storage, p: Profile)
    requires |profiles| > 0 && p.id == ""
    ensures SelectedProfile(profiles, GetItem(StoreAfterSet(storage, Some(p)), CurrentProfileKey)) == profiles[0]
  {
  }

  class ProfileProvider {
    var currentProfile: Option<Profile>
    var storage: Storage

    /** Mounting: no current profile, the store as the browser has it. */
    constructor (storage: Storage)
      ensures currentProfile.None? && this.storage == storage
    {
      currentProfile := None;
      this.storage := storage;
    }

    /** The selection effect, run when the list or the signed-in user changes. A non-empty list
        selects from it and leaves the store alone; an empty list with nobody signed in clears the
        selection and the key; an empty list with a user signed in (still loading) does nothing. */
    method SelectionEffect(profiles: seq<Profile>, signedIn: bool)
      modifies this
      ensures |profiles| > 0 ==>
        currentProfile == Some(SelectedProfile(profiles, GetItem(old(storage), CurrentProfileKey)))
        && storage == old(storage)
      ensures |profiles| > 0 ==> currentProfile.Some? && currentProfile.value in profiles
      ensures |profiles| == 0 && !signedIn ==>
        currentProfile.None? && storage == StoreAfterSet(old(storage), None)
      ensures |profiles| == 0 && signedIn ==>
        currentProfile == old(currentProfile) && storage == old(storage)
    {
      if |profiles| > 0 {
        var savedProfileId := GetItem(storage, CurrentProfileKey);
        currentProfile := Some(SelectedProfile(profiles, savedProfileId));
      } else if !signedIn {
        currentProfile := None;
        storage := storage - {CurrentProfileKey};
      }
    }

    /** `setCurrentProfile`: the selection changes, and the store remembers it. */
    method SetCurrentProfile(profile: Option<Profile>)
      modifies this
      ensures currentProfile == profile
      ensures storage == StoreAfterSet(old(storage), profile)
    {
      currentProfile := profile;
      if profile.Some? {
        storage := storage[CurrentProfileKey := profile.value.id];
      } else {
        storage := storage - {CurrentProfileKey};
      }
    }
  }
}
