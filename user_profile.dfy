/**
 * The signed-in user as the header shows it: built from the auth user's
 * metadata, its first linked identity and its email, by the same chain of
 * `??` fallbacks in src/app/page.tsx and in the dashboard's auth listener.
 */
module UserProfile {
  import opened Wrappers

  /** The profile fields read from `user_metadata` or `identity_data`. */
  datatype Meta = Meta(avatarUrl: Option<string>, picture: Option<string>, fullName: Option<string>, name: Option<string>)

  const NoMeta: Meta := Meta(None, None, None, None)

  datatype Identity = Identity(identityData: Option<Meta>)

  /** What the auth service reports about a signed-in user. */
  datatype AuthUser = AuthUser(userMetadata: Option<Meta>, identities: Option<seq<Identity>>, email: Option<string>)

  /** The user the dashboard's header shows. */
  datatype DashboardUser = DashboardUser(name: string, email: Option<string>, avatar: Option<string>)

  const DefaultName: string := "Usuario"

  /** `identities?.[0]?.identity_data ?? {}`: only the first identity is read. */
  function FirstIdentityMeta(u: AuthUser): Meta
  {
    if u.identities.Some? && |u.identities.value| > 0 && u.identities.value[0].identityData.Some?
    then u.identities.value[0].identityData.value
    else NoMeta
  }

  /** `email.split("@")[0]`: the text before the first `@`, or all of it. */
  function EmailLocalPart(email: string): (r: string)
    ensures r <= email
    ensures '@' !in r
    ensures |r| == |email| || email[|r|] == '@'
  {
    if email == [] || email[0] == '@' then []
    else
      var rest := EmailLocalPart(email[1..]);
      assert email == [email[0]] + email[1..];
      [email[0]] + rest
  }

  function AvatarCandidates(meta: Meta, id: Meta): seq<Option<string>>
  {
    [meta.avatarUrl, meta.picture, id.avatarUrl, id.picture]
  }

  function NameCandidates(meta: Meta, id: Meta, email: Option<string>): seq<Option<string>>
  {
    [meta.fullName, meta.name, id.fullName, id.name, if email.Some? then Some(EmailLocalPart(email.value)) else None]
  }

  function DisplayUser(u: AuthUser): (d: DashboardUser)
    ensures d.email == u.email
  {
    var meta := OrElse(u.userMetadata, NoMeta);
    var id := FirstIdentityMeta(u);
    DashboardUser(OrElse(Coalesce(NameCandidates(meta, id, u.email)), DefaultName), u.email, Coalesce(AvatarCandidates(meta, id)))
  }

  /** The avatar is the first present of the metadata's `avatar_url` and
      `picture`, then the first identity's, and absent when none is. */
  lemma AvatarChain(u: AuthUser)
    ensures var meta, id := OrElse(u.userMetadata, NoMeta), FirstIdentityMeta(u);
      DisplayUser(u).avatar ==
        if meta.avatarUrl.Some? then meta.avatarUrl
        else if meta.picture.Some? then meta.picture
        else if id.avatarUrl.Some? then id.avatarUrl
        else id.picture
  {
    var meta, id := OrElse(u.userMetadata, NoMeta), FirstIdentityMeta(u);
    assert AvatarCandidates(meta, id) == [meta.avatarUrl] + ([meta.picture] + ([id.avatarUrl] + ([id.picture] + [])));
    CoalesceCons(meta.avatarUrl, [meta.picture] + ([id.avatarUrl] + ([id.picture] + [])));
    CoalesceCons(meta.picture, [id.avatarUrl] + ([id.picture] + []));
    CoalesceCons(id.avatarUrl, [id.picture] + []);
    CoalesceCons(id.picture, []);
  }

  /** The name is the first present of the four name fields, else the email's
      local part; the presence test keeps an empty `full_name`. */
  lemma NameChain(u: AuthUser)
    ensures var meta, id := OrElse(u.userMetadata, NoMeta), FirstIdentityMeta(u);
      DisplayUser(u).name ==
        if meta.fullName.Some? then meta.fullName.value
        else if meta.name.Some? then meta.name.value
        else if id.fullName.Some? then id.fullName.value
        else if id.name.Some? then id.name.value
        else if u.email.Some? then EmailLocalPart(u.email.value)
        else DefaultName
  {
    var meta, id := OrElse(u.userMetadata, NoMeta), FirstIdentityMeta(u);
    var local := if u.email.Some? then Some(EmailLocalPart(u.email.value)) else None;
    assert NameCandidates(meta, id, u.email)
        == [meta.fullName] + ([meta.name] + ([id.fullName] + ([id.name] + ([local] + []))));
    CoalesceCons(meta.fullName, [meta.name] + ([id.fullName] + ([id.name] + ([local] + []))));
    CoalesceCons(meta.name, [id.fullName] + ([id.name] + ([local] + [])));
    CoalesceCons(id.fullName, [id.name] + ([local] + []));
    CoalesceCons(id.name, [local] + []);
    CoalesceCons(local, []);
  }

  /** "Usuario" is the fallback exactly when the email and all four name fields
      are absent; with an email the name is its local part, even an empty one. */
  lemma DefaultNameOnlyWithoutEmail(u: AuthUser)
    ensures var meta, id := OrElse(u.userMetadata, NoMeta), FirstIdentityMeta(u);
      var absent := u.email.None? && meta.fullName.None? && meta.name.None? && id.fullName.None? && id.name.None?;
      Coalesce(NameCandidates(meta, id, u.email)).None? <==> absent
  {
    var meta, id := OrElse(u.userMetadata, NoMeta), FirstIdentityMeta(u);
    var xs := NameCandidates(meta, id, u.email);
    assert xs[0] == meta.fullName && xs[1] == meta.name && xs[2] == id.fullName && xs[3] == id.name;
    assert xs[4].None? <==> u.email.None?;
  }

  /** Identities after the first are never read, and the email is passed on as it is. */
  lemma OnlyFirstIdentity(u: AuthUser, more: seq<Identity>)
    requires u.identities.Some? && |u.identities.value| > 0
    ensures DisplayUser(u.(identities := Some([u.identities.value[0]] + more))) == DisplayUser(u)
    ensures DisplayUser(u).email == u.email
  {
    assert FirstIdentityMeta(u.(identities := Some([u.identities.value[0]] + more))) == FirstIdentityMeta(u);
  }

  lemma ExampleLocalPart()
    ensures EmailLocalPart("ana@ejemplo.cl") == "ana"
  {
    assert "ana@ejemplo.cl"[1..] == "na@ejemplo.cl";
    assert "na@ejemplo.cl"[1..] == "a@ejemplo.cl";
    assert "a@ejemplo.cl"[1..] == "@ejemplo.cl";
  }
}
