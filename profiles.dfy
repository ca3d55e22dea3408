/** The `profiles` table and the hooks that query and change it. The table is a map from
    profile id to row. `is_slug_available` is read as "no row holds this slug". */
module Profiles {
  import opened Common

  type Id = string
  type UserId = string

  /** The `custom_colors` column as stored: a JSON object whose keys may be missing. */
  datatype StoredColors = StoredColors(
    primary: Option<string>, secondary: Option<string>, accent: Option<string>,
    neutral: Option<string>, base: Option<string>)

  /** One row of `profiles`. `createdAt` is the table's insertion stamp (`created_at`). */
  datatype Profile = Profile(
    id: Id, userId: UserId, createdAt: nat,
    slug: string, companyName: string, slogan: string, email: string, phone: string,
    whatsapp: Option<string>, isActive: bool,
    themePreset: Option<string>, customColors: Option<StoredColors>)

  /** The insert payload the profile-creation dialog sends. */
  datatype NewProfile = NewProfile(
    companyName: string, slug: string, slogan: string, email: string, phone: string,
    isActive: bool)

  /** A partial update: `None` leaves a column as it is. */
  datatype ProfileUpdate = ProfileUpdate(
    slug: Option<string>, companyName: Option<string>, slogan: Option<string>,
    email: Option<string>, phone: Option<string>, whatsapp: Option<string>,
    isActive: Option<bool>, themePreset: Option<string>, customColors: Option<StoredColors>)

  const NoChange := ProfileUpdate(None, None, None, None, None, None, None, None, None)

  datatype Error =
    | NotAuthenticated   // "User not authenticated"
    | SlugTaken          // "Ce slug est déjà utilisé. Veuillez en choisir un autre."
    | SlugRequired       // "Slug is required"
    | ProfileIdRequired  // "Profile ID is required"
    | NotFound           // `.single()` found no row, or more than one
    | StoreError         // the store rejected the statement or could not be reached

  type Rows = map<Id, Profile>

  /** Every row is stored under its own id and was stamped before `clock`, each with its own
      stamp. */
  ghost predicate WellFormed(rows: Rows, clock: nat) {
    (forall id :: id in rows ==> rows[id].id == id && rows[id].createdAt < clock)
    && (forall a, b :: a in rows && b in rows && a != b ==> rows[a].createdAt != rows[b].createdAt)
  }

  /** No two profiles share a slug. */
  ghost predicate SlugsDistinct(rows: Rows) {
    forall a, b :: a in rows && b in rows && a != b ==> rows[a].slug != rows[b].slug
  }

  /** The answer `is_slug_available` is taken to give: no row holds `slug`. */
  predicate SlugAvailable(rows: Rows, slug: string) {
    forall id :: id in rows ==> rows[id].slug != slug
  }

  /** Some row other than `id` holds `slug`: what the update's pre-check query looks for. */
  predicate HeldByOther(rows: Rows, slug: string, id: Id) {
    exists other :: other in rows && other != id && rows[other].slug == slug
  }

  // ---------------------------------------------------------------------------------------
  // useCreateProfile

  /** The outcome of `useCreateProfile`. `user` is the signed-in account, `rpcReached` says
      whether `is_slug_available` answered (on failure its `data` is null, which reads as
      "taken"), and `newId` is the id the database generates for the row. */
  function CreateOutcome(rows: Rows, clock: nat, user: Option<UserId>, draft: NewProfile,
                         rpcReached: bool, newId: Id): (r: Result<Profile, Error>)
    ensures user.None? ==> r == Err(NotAuthenticated)
    ensures user.Some? && !(rpcReached && SlugAvailable(rows, draft.slug)) ==> r == Err(SlugTaken)
    ensures r.Ok? <==> user.Some? && rpcReached && SlugAvailable(rows, draft.slug) && newId !in rows
    ensures r.Ok? ==> var p := r.value;
      p.id == newId && p.userId == user.value && p.createdAt == clock
      && p.slug == draft.slug && p.companyName == draft.companyName && p.slogan == draft.slogan
      && p.email == draft.email && p.phone == draft.phone && p.isActive == draft.isActive
  {
    if user.None? then Err(NotAuthenticated)
    else if !rpcReached || !SlugAvailable(rows, draft.slug) then Err(SlugTaken)
    else if newId in rows then Err(StoreError)
    else Ok(Profile(newId, user.value, clock, draft.slug, draft.companyName, draft.slogan,
                    draft.email, draft.phone, None, draft.isActive, None, None))
  }

  /** The table after a create: the new row is added under its id, and nothing happens on
      failure. */
  function AfterCreate(rows: Rows, r: Result<Profile, Error>): (after: Rows)
    ensures r.Err? ==> after == rows
    ensures r.Ok? ==> after.Keys == rows.Keys + {r.value.id} && after[r.value.id] == r.value
    ensures forall id :: id in rows && !(r.Ok? && id == r.value.id) ==> after[id] == rows[id]
  {
    if r.Ok? then rows[r.value.id := r.value] else rows
  }

  /** A create never lets two profiles share a slug. */
  lemma CreateKeepsSlugsDistinct(rows: Rows, clock: nat, user: Option<UserId>, draft: NewProfile,
                                 rpcReached: bool, newId: Id)
    requires SlugsDistinct(rows)
    ensures SlugsDistinct(AfterCreate(rows, CreateOutcome(rows, clock, user, draft, rpcReached, newId)))
  {
  }

  lemma CreateKeepsWellFormed(rows: Rows, clock: nat, user: Option<UserId>, draft: NewProfile,
                              rpcReached: bool, newId: Id)
    requires WellFormed(rows, clock)
    ensures var r := CreateOutcome(rows, clock, user, draft, rpcReached, newId);
      WellFormed(AfterCreate(rows, r), if r.Ok? then clock + 1 else clock)
  {
  }

  // ---------------------------------------------------------------------------------------
  // useUpdateProfile

  /** `updates` applied to a row: every column present in `updates` is overwritten. */
  function Apply(p: Profile, u: ProfileUpdate): (q: Profile)
    ensures q.id == p.id && q.userId == p.userId && q.createdAt == p.createdAt
    ensures q.slug == u.slug.GetOr(p.slug)
    ensures q.companyName == u.companyName.GetOr(p.companyName)
    ensures q.slogan == u.slogan.GetOr(p.slogan)
    ensures q.email == u.email.GetOr(p.email)
    ensures q.phone == u.phone.GetOr(p.phone)
    ensures q.whatsapp == (if u.whatsapp.Some? then u.whatsapp else p.whatsapp)
    ensures q.isActive == u.isActive.GetOr(p.isActive)
    ensures q.themePreset == (if u.themePreset.Some? then u.themePreset else p.themePreset)
    ensures q.customColors == (if u.customColors.Some? then u.customColors else p.customColors)
    ensures u == NoChange ==> q == p
  {
    p.(slug := u.slug.GetOr(p.slug),
       companyName := u.companyName.GetOr(p.companyName),
       slogan := u.slogan.GetOr(p.slogan),
       email := u.email.GetOr(p.email),
       phone := u.phone.GetOr(p.phone),
       whatsapp := if u.whatsapp.Some? then u.whatsapp else p.whatsapp,
       isActive := u.isActive.GetOr(p.isActive),
       themePreset := if u.themePreset.Some? then u.themePreset else p.themePreset,
       customColors := if u.customColors.Some? then u.customColors else p.customColors)
  }

  /** The outcome of `useUpdateProfile` as written. The slug check runs only when `updates.slug`
      is truthy, i.e. present and non-empty. Its query's error is ignored: when `lookupFailed`,
      `existingProfiles` is null and the check passes. `.single()` fails when no row has `id`. */
  function UpdateOutcome(rows: Rows, id: Id, u: ProfileUpdate, lookupFailed: bool): (r: Result<Profile, Error>)
    ensures r == Err(SlugTaken) <==>
      u.slug.Some? && u.slug.value != "" && !lookupFailed && HeldByOther(rows, u.slug.value, id)
    ensures r.Ok? <==> id in rows && r != Err(SlugTaken)
    ensures r.Ok? ==> r.value.id == rows[id].id && r.value.userId == rows[id].userId
    ensures r.Ok? ==> r.value.slug == u.slug.GetOr(rows[id].slug)
    ensures r.Ok? ==> r.value == Apply(rows[id], u)
  {
    if u.slug.Some? && u.slug.value != "" && !lookupFailed && HeldByOther(rows, u.slug.value, id)
    then Err(SlugTaken)
    else if id !in rows then Err(NotFound)
    else Ok(Apply(rows[id], u))
  }

  /** The table after an update: the row is replaced, and nothing changes on failure. */
  function AfterUpdate(rows: Rows, id: Id, r: Result<Profile, Error>): Rows {
    if r.Ok? then rows[id := r.value] else rows
  }

  /** A profile may keep its own slug: with distinct slugs, an update that sets a profile's slug
      to the one it holds is never refused as taken. */
  lemma UpdateToOwnSlugAccepted(rows: Rows, id: Id, u: ProfileUpdate, lookupFailed: bool)
    requires SlugsDistinct(rows) && id in rows && u.slug == Some(rows[id].slug)
    ensures UpdateOutcome(rows, id, u, lookupFailed).Ok?
  {
  }

  /** An update without a slug skips the check and succeeds whenever the row exists. */
  lemma UpdateWithoutSlugSkipsCheck(rows: Rows, id: Id, u: ProfileUpdate, lookupFailed: bool)
    requires u.slug.None?
    ensures UpdateOutcome(rows, id, u, lookupFailed).Ok? <==> id in rows
  {
  }

  /** When the check runs and answers, and the slug is non-empty, an update keeps slugs
      distinct. */
  lemma UpdateKeepsSlugsDistinct(rows: Rows, id: Id, u: ProfileUpdate, lookupFailed: bool)
    requires SlugsDistinct(rows)
    requires u.slug != Some("") && !lookupFailed
    ensures SlugsDistinct(AfterUpdate(rows, id, UpdateOutcome(rows, id, u, lookupFailed)))
  {
    var r := UpdateOutcome(rows, id, u, lookupFailed);
    if r.Ok? {
      var after := AfterUpdate(rows, id, r);
      forall a, b | a in after && b in after && a != b
        ensures after[a].slug != after[b].slug
      {
        if a == id && u.slug.Some? {
          assert !HeldByOther(rows, u.slug.value, id);
          assert rows[b].slug != u.slug.value;
        } else if b == id && u.slug.Some? {
          assert !HeldByOther(rows, u.slug.value, id);
          assert rows[a].slug != u.slug.value;
        }
      }
    }
  }

  lemma UpdateKeepsWellFormed(rows: Rows, clock: nat, id: Id, u: ProfileUpdate, lookupFailed: bool)
    requires WellFormed(rows, clock)
    ensures WellFormed(AfterUpdate(rows, id, UpdateOutcome(rows, id, u, lookupFailed)), clock)
    ensures WellFormed(AfterUpdate(rows, id, CheckedUpdateOutcome(rows, id, u, lookupFailed)), clock)
  {
  }

  /** Two rows used by the counterexamples below. */
  function SampleRow(id: Id, slug: string): Profile {
    Profile(id, "owner", if id == "a" then 0 else 1, slug, "Shop", "", "", "", None, true, None, None)
  }

  /** An update whose slug is "" skips the check, because "" is falsy, yet still writes "".
      From a table where "a" holds "" and "b" holds "shop", updating "b" to "" is accepted and
      leaves two profiles holding "". */
  lemma EmptySlugUpdateDuplicates()
    ensures var rows := map["a" := SampleRow("a", ""), "b" := SampleRow("b", "shop")];
      var u := NoChange.(slug := Some(""));
      var r := UpdateOutcome(rows, "b", u, false);
      SlugsDistinct(rows) && r.Ok? && !SlugsDistinct(AfterUpdate(rows, "b", r))
  {
    var rows := map["a" := SampleRow("a", ""), "b" := SampleRow("b", "shop")];
    var u := NoChange.(slug := Some(""));
    var r := UpdateOutcome(rows, "b", u, false);
    var after := AfterUpdate(rows, "b", r);
    assert after["a"].slug == after["b"].slug;
  }

  /** A failed pre-check query reads as "no conflict". From a table where "a" holds "shop" and
      "b" holds "cafe", updating "b" to "shop" while the query fails is accepted and leaves two
      profiles holding "shop". */
  lemma FailedLookupUpdateDuplicates()
    ensures var rows := map["a" := SampleRow("a", "shop"), "b" := SampleRow("b", "cafe")];
      var u := NoChange.(slug := Some("shop"));
      var r := UpdateOutcome(rows, "b", u, true);
      SlugsDistinct(rows) && r.Ok? && !SlugsDistinct(AfterUpdate(rows, "b", r))
  {
    var rows := map["a" := SampleRow("a", "shop"), "b" := SampleRow("b", "cafe")];
    var u := NoChange.(slug := Some("shop"));
    var r := UpdateOutcome(rows, "b", u, true);
    var after := AfterUpdate(rows, "b", r);
    assert after["a"].slug == after["b"].slug;
  }

  /** The update guard as intended: the check runs whenever `updates.slug` is present, and a
      failed query is an error rather than a pass. */
  function CheckedUpdateOutcome(rows: Rows, id: Id, u: ProfileUpdate, lookupFailed: bool): (r: Result<Profile, Error>)
    ensures r.Ok? <==> id in rows && (u.slug.Some? ==> !lookupFailed && !HeldByOther(rows, u.slug.value, id))
    ensures r.Ok? ==> r.value == Apply(rows[id], u)
    ensures r == Err(StoreError) <==> u.slug.Some? && lookupFailed
    ensures r == Err(SlugTaken) <==> u.slug.Some? && !lookupFailed && HeldByOther(rows, u.slug.value, id)
  {
    if u.slug.Some? && lookupFailed then Err(StoreError)
    else if u.slug.Some? && HeldByOther(rows, u.slug.value, id) then Err(SlugTaken)
    else if id !in rows then Err(NotFound)
    else Ok(Apply(rows[id], u))
  }

  /** The intended guard keeps slugs distinct on every input. */
  lemma CheckedUpdateKeepsSlugsDistinct(rows: Rows, id: Id, u: ProfileUpdate, lookupFailed: bool)
    requires SlugsDistinct(rows)
    ensures SlugsDistinct(AfterUpdate(rows, id, CheckedUpdateOutcome(rows, id, u, lookupFailed)))
  {
    var r := CheckedUpdateOutcome(rows, id, u, lookupFailed);
    if r.Ok? {
      var after := AfterUpdate(rows, id, r);
      forall a, b | a in after && b in after && a != b
        ensures after[a].slug != after[b].slug
      {
        if a == id && u.slug.Some? {
          assert rows[b].slug != u.slug.value;
        } else if b == id && u.slug.Some? {
          assert rows[a].slug != u.slug.value;
        }
      }
    }
  }

  /** Where the written guard does run and answer, it agrees with the intended one. */
  lemma CheckedUpdateAgrees(rows: Rows, id: Id, u: ProfileUpdate, lookupFailed: bool)
    requires u.slug != Some("") && !lookupFailed
    ensures CheckedUpdateOutcome(rows, id, u, lookupFailed) == UpdateOutcome(rows, id, u, lookupFailed)
  {
  }

  // ---------------------------------------------------------------------------------------
  // useDeleteProfile

  /** The table after `delete().eq('id', id)`: the row with that id is gone, every other row is
      untouched, and with distinct slugs its slug is free again. */
  function AfterDelete(rows: Rows, id: Id): (after: Rows)
    ensures id !in after && after.Keys == rows.Keys - {id}
    ensures forall other :: other in after ==> after[other] == rows[other]
    ensures SlugsDistinct(rows) && id in rows ==> SlugAvailable(after, rows[id].slug)
  {
    rows - {id}
  }

  lemma DeleteKeepsSlugsDistinct(rows: Rows, id: Id)
    requires SlugsDistinct(rows)
    ensures SlugsDistinct(AfterDelete(rows, id))
  {
  }

  // ---------------------------------------------------------------------------------------
  // Sequences of operations

  datatype Op =
    | Create(user: Option<UserId>, draft: NewProfile, rpcReached: bool, newId: Id)
    | Update(id: Id, updates: ProfileUpdate, lookupFailed: bool)
    | Delete(id: Id)

  /** An update the written guard handles as intended: no empty slug, and the query answered. */
  predicate Benign(op: Op) {
    op.Update? ==> op.updates.slug != Some("") && !op.lookupFailed
  }

  /** The table after running `ops` in order; `checked` selects the intended update guard
      instead of the written one. */
  function Run(rows: Rows, clock: nat, ops: seq<Op>, checked: bool): Rows
    decreases |ops|
  {
    if ops == [] then rows
    else
      match ops[0]
      case Create(user, draft, rpcReached, newId) =>
        var r := CreateOutcome(rows, clock, user, draft, rpcReached, newId);
        Run(AfterCreate(rows, r), if r.Ok? then clock + 1 else clock, ops[1..], checked)
      case Update(id, u, lookupFailed) =>
        var r := if checked then CheckedUpdateOutcome(rows, id, u, lookupFailed)
                 else UpdateOutcome(rows, id, u, lookupFailed);
        Run(AfterUpdate(rows, id, r), clock, ops[1..], checked)
      case Delete(id) =>
        Run(AfterDelete(rows, id), clock, ops[1..], checked)
  }

  /** Starting from distinct slugs, any sequence of creates, updates and deletes keeps slugs
      distinct: always with the intended guard, and with the written one when every update is
      benign. */
  lemma {:induction false} RunKeepsSlugsDistinct(rows: Rows, clock: nat, ops: seq<Op>, checked: bool)
    requires SlugsDistinct(rows)
    requires !checked ==> forall i :: 0 <= i < |ops| ==> Benign(ops[i])
    ensures SlugsDistinct(Run(rows, clock, ops, checked))
    decreases |ops|
  {
    if ops != [] {
      assert forall i :: 0 <= i < |ops[1..]| ==> ops[1..][i] == ops[i + 1];
      match ops[0]
      case Create(user, draft, rpcReached, newId) =>
        var r := CreateOutcome(rows, clock, user, draft, rpcReached, newId);
        CreateKeepsSlugsDistinct(rows, clock, user, draft, rpcReached, newId);
        RunKeepsSlugsDistinct(AfterCreate(rows, r), if r.Ok? then clock + 1 else clock, ops[1..], checked);
      case Update(id, u, lookupFailed) =>
        if checked {
          CheckedUpdateKeepsSlugsDistinct(rows, id, u, lookupFailed);
          var r := CheckedUpdateOutcome(rows, id, u, lookupFailed);
          RunKeepsSlugsDistinct(AfterUpdate(rows, id, r), clock, ops[1..], checked);
        } else {
          assert Benign(ops[0]);
          UpdateKeepsSlugsDistinct(rows, id, u, lookupFailed);
          var r := UpdateOutcome(rows, id, u, lookupFailed);
          RunKeepsSlugsDistinct(AfterUpdate(rows, id, r), clock, ops[1..], checked);
        }
      case Delete(id) =>
        DeleteKeepsSlugsDistinct(rows, id);
        RunKeepsSlugsDistinct(AfterDelete(rows, id), clock, ops[1..], checked);
    }
  }

  // ---------------------------------------------------------------------------------------
  // Queries: useProfiles, useProfile, useProfileBySlug, useCheckSlugAvailability

  /** The rows of `user` stamped before `t`, newest first. */
  ghost function ListFrom(rows: Rows, user: UserId, t: nat): (s: seq<Profile>)
    ensures forall i :: 0 <= i < |s| ==> s[i] in rows.Values && s[i].userId == user && s[i].createdAt < t
    ensures forall i, j :: 0 <= i < j < |s| ==> s[i].createdAt > s[j].createdAt
    decreases t
  {
    if t == 0 then []
    else if exists id :: id in rows && rows[id].createdAt == t - 1 && rows[id].userId == user then
      var id :| id in rows && rows[id].createdAt == t - 1 && rows[id].userId == user;
      [rows[id]] + ListFrom(rows, user, t - 1)
    else ListFrom(rows, user, t - 1)
  }

  /** Every row of `user` stamped before `t` is listed. */
  lemma {:induction false} ListFromComplete(rows: Rows, clock: nat, user: UserId, t: nat, id: Id)
    requires WellFormed(rows, clock)
    requires id in rows && rows[id].userId == user && rows[id].createdAt < t
    ensures rows[id] in ListFrom(rows, user, t)
    decreases t
  {
    if rows[id].createdAt < t - 1 {
      ListFromComplete(rows, clock, user, t - 1, id);
    } else {
      var other :| other in rows && rows[other].createdAt == t - 1 && rows[other].userId == user;
      assert other == id;
    }
  }

  /** `useProfiles`: the signed-in user's profiles, newest first. */
  ghost function ListProfiles(rows: Rows, clock: nat, user: Option<UserId>): (r: Result<seq<Profile>, Error>)
    ensures user.None? <==> r == Err(NotAuthenticated)
    ensures r.Ok? ==> forall i :: 0 <= i < |r.value| ==> r.value[i] in rows.Values && r.value[i].userId == user.value
    ensures r.Ok? ==> forall i, j :: 0 <= i < j < |r.value| ==> r.value[i].createdAt > r.value[j].createdAt
  {
    if user.None? then Err(NotAuthenticated) else Ok(ListFrom(rows, user.value, clock))
  }

  /** Every profile of the user appears in the listing. */
  lemma ListProfilesComplete(rows: Rows, clock: nat, user: UserId, id: Id)
    requires WellFormed(rows, clock)
    requires id in rows && rows[id].userId == user
    ensures ListProfiles(rows, clock, Some(user)).Ok?
    ensures rows[id] in ListProfiles(rows, clock, Some(user)).value
  {
    ListFromComplete(rows, clock, user, clock, id);
  }

  /** `useProfile`: a missing or empty id is refused before any query, and `.single()` fails when
      no row has the id. */
  function GetProfile(rows: Rows, profileId: Option<Id>): (r: Result<Profile, Error>)
    ensures (profileId.None? || profileId.value == "") <==> r == Err(ProfileIdRequired)
    ensures r.Ok? <==> profileId.Some? && profileId.value != "" && profileId.value in rows
    ensures r.Ok? ==> r.value == rows[profileId.value]
  {
    if profileId.None? || profileId.value == "" then Err(ProfileIdRequired)
    else if profileId.value !in rows then Err(NotFound)
    else Ok(rows[profileId.value])
  }

  /** The ids of active profiles holding `slug`. */
  ghost function ActiveHolders(rows: Rows, slug: string): set<Id> {
    set id | id in rows && rows[id].slug == slug && rows[id].isActive
  }

  /** `useProfileBySlug`: a missing or empty slug is refused; otherwise exactly one active row
      with that slug must exist. */
  ghost function GetProfileBySlug(rows: Rows, slug: Option<string>): (r: Result<Profile, Error>)
    ensures (slug.None? || slug.value == "") ==> r == Err(SlugRequired)
    ensures r.Ok? ==> slug.Some? && r.value in rows.Values && r.value.slug == slug.value && r.value.isActive
  {
    if slug.None? || slug.value == "" then Err(SlugRequired)
    else
      var holders := ActiveHolders(rows, slug.value);
      if |holders| == 1 then
        var id :| id in holders;
        Ok(rows[id])
      else Err(NotFound)
  }

  /** With distinct slugs, an active profile is found by its slug. */
  lemma ProfileFoundBySlug(rows: Rows, id: Id)
    requires SlugsDistinct(rows) && id in rows && rows[id].isActive && rows[id].slug != ""
    ensures GetProfileBySlug(rows, Some(rows[id].slug)) == Ok(rows[id])
  {
    var holders := ActiveHolders(rows, rows[id].slug);
    assert holders == {id};
  }

  /** An inactive profile is never served by its slug. */
  lemma InactiveNotFoundBySlug(rows: Rows, id: Id)
    requires SlugsDistinct(rows) && id in rows && !rows[id].isActive
    ensures GetProfileBySlug(rows, Some(rows[id].slug)).Err?
  {
    var slug := rows[id].slug;
    if slug != "" {
      var holders := ActiveHolders(rows, slug);
      assert holders == {};
    }
  }

  /** `useCheckSlugAvailability`: the RPC's answer, or its error. `excludeId` is accepted and
      never used. */
  function CheckSlugAvailability(rows: Rows, slug: string, excludeId: Option<Id>, rpcReached: bool): (r: Result<bool, Error>)
    ensures r.Ok? <==> rpcReached
    ensures r.Ok? ==> (r.value <==> SlugAvailable(rows, slug))
  {
    if rpcReached then Ok(SlugAvailable(rows, slug)) else Err(StoreError)
  }

  /** The check answers the same whatever `excludeId` is, so a profile's own slug is reported as
      taken. */
  lemma CheckIgnoresExcludeId(rows: Rows, id: Id, rpcReached: bool)
    requires id in rows && rpcReached
    ensures CheckSlugAvailability(rows, rows[id].slug, Some(id), rpcReached) == Ok(false)
  {
  }

  // ---------------------------------------------------------------------------------------
  // The table as mutable state

  /** The `profiles` table: its rows and the stamp the next insert receives. */
  class ProfileTable {
    var rows: Rows
    var clock: nat

    ghost predicate Valid()
      reads this
    {
      WellFormed(rows, clock)
    }

    constructor ()
      ensures Valid() && rows == map[] && clock == 0
    {
      rows := map[];
      clock := 0;
    }

    /** `useCreateProfile`'s mutation: refuse without a user, refuse an unavailable slug (or a
        failed RPC), then insert the row with `user_id` set. */
    method CreateProfile(user: Option<UserId>, draft: NewProfile, rpcReached: bool, newId: Id)
      returns (r: Result<Profile, Error>)
      requires Valid()
      modifies this
      ensures Valid()
      ensures r == CreateOutcome(old(rows), old(clock), user, draft, rpcReached, newId)
      ensures rows == AfterCreate(old(rows), r)
      ensures clock == if r.Ok? then old(clock) + 1 else old(clock)
      ensures SlugsDistinct(old(rows)) ==> SlugsDistinct(rows)
    {
      CreateKeepsWellFormed(rows, clock, user, draft, rpcReached, newId);
      if SlugsDistinct(rows) {
        CreateKeepsSlugsDistinct(rows, clock, user, draft, rpcReached, newId);
      }
      if user.None? {
        return Err(NotAuthenticated);
      }
      var slugCheck := rpcReached && SlugAvailable(rows, draft.slug);
      if !slugCheck {
        return Err(SlugTaken);
      }
      if newId in rows {
        return Err(StoreError);
      }
      var p := Profile(newId, user.value, clock, draft.slug, draft.companyName, draft.slogan,
                       draft.email, draft.phone, None, draft.isActive, None, None);
      rows := rows[newId := p];
      clock := clock + 1;
      r := Ok(p);
    }

    /** `useUpdateProfile`'s mutation, with the slug guard corrected as `CheckedUpdateOutcome`
        states: a present slug is always checked, and a failed lookup refuses the update. */
    method UpdateProfile(id: Id, updates: ProfileUpdate, lookupFailed: bool)
      returns (r: Result<Profile, Error>)
      requires Valid()
      modifies this
      ensures Valid() && clock == old(clock)
      ensures r == CheckedUpdateOutcome(old(rows), id, updates, lookupFailed)
      ensures rows == AfterUpdate(old(rows), id, r)
      ensures SlugsDistinct(old(rows)) ==> SlugsDistinct(rows)
    {
      UpdateKeepsWellFormed(rows, clock, id, updates, lookupFailed);
      if SlugsDistinct(rows) {
        CheckedUpdateKeepsSlugsDistinct(rows, id, updates, lookupFailed);
      }
      if updates.slug.Some? {
        if lookupFailed {
          return Err(StoreError);
        }
        var conflict := HeldByOther(rows, updates.slug.value, id);
        if conflict {
          return Err(SlugTaken);
        }
      }
      if id !in rows {
        return Err(NotFound);
      }
      var p := Apply(rows[id], updates);
      rows := rows[id := p];
      r := Ok(p);
    }

    /** `useDeleteProfile`'s mutation: the row goes, and its slug is free again. */
    method DeleteProfile(id: Id)
      requires Valid()
      modifies this
      ensures Valid() && clock == old(clock)
      ensures rows == AfterDelete(old(rows), id)
      ensures SlugsDistinct(old(rows)) ==> SlugsDistinct(rows)
    {
      rows := rows - {id};
    }
  }
}
