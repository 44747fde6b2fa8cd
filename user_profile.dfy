/**
 * The decisions of the two profile handlers behind `/api/users/me`: reading
 * the signed-in user's profile and renaming the user. The database is an
 * oracle: each handler is given what the query would return, and reports
 * both the database access it made (if any) and the response it sends.
 */
module UserProfile {
  import opened Optional
  import Text

  /** A row of the `users` table as selected by the handlers. */
  datatype UserRow = UserRow(id: string, name: Option<string>, email: Option<string>, createdAt: string)

  /** A response body: a message, or the profile fields. */
  datatype Body = Message(text: string) | Profile(id: string, name: Option<string>, email: Option<string>, createdAt: string)

  datatype Response = Response(status: int, body: Body)

  /** What reading one row by id gives: a database error with its code, the
      row (None when no row came back), or an exception from the client. */
  datatype LookupResult = LookupError(code: string) | Found(row: Option<UserRow>) | LookupThrew

  /** What the rename gives: a database error, the updated row (None when
      none came back), or an exception from the client. */
  datatype UpdateResult = UpdateError | Updated(row: Option<UserRow>) | UpdateThrew

  /** The `name` field of the request body: missing (or null), a string, or
      some other JSON value, which is truthy unless it is `false` or 0; or
      NoBody when the request carries no parsed body (`req.body` undefined),
      so that destructuring `name` out of it throws. */
  datatype NameField = NoBody | NoName | NameString(s: string) | NameOther(truthy: bool)

  /** The handler's result: the user id it read by (get) or the id and new
      name it wrote (update), if it reached the database, and its response. */
  datatype Handled<A> = Handled(access: Option<A>, response: Response)

  const NotAuthenticated := "Kullanıcı kimliği doğrulanamadı."
  const UserNotFound := "Kullanıcı bulunamadı."
  const ProfileUnavailable := "Kullanıcı bilgileri alınamadı."
  const UserDataNotFound := "Kullanıcı verisi bulunamadı."
  const ServerError := "Sunucu hatası oluştu."
  const EmptyName := "İsim alanı boş olamaz."
  const UpdateFailed := "Profil güncellenemedi."
  const DefaultName := "Kullanıcı"
  const NoRowCode := "PGRST116"

  /** `data.name || data.email?.split('@')[0] || "Kullanıcı"`. */
  function DisplayName(name: Option<string>, email: Option<string>): (shown: string)
    ensures shown != ""
    ensures Truthy(name) ==> shown == name.value
    ensures !Truthy(name) && email.None? ==> shown == DefaultName
  {
    if Truthy(name) then name.value
    else if email.Some? && Text.Split(email.value, '@')[0] != "" then Text.Split(email.value, '@')[0]
    else DefaultName
  }

  /** Without a name, an address with an '@' shows the part before the first
      '@', unless that part is empty; an address without '@' shows whole. */
  lemma DisplayNameFromEmail(name: Option<string>, local: string, domain: string)
    requires !Truthy(name) && '@' !in local
    ensures DisplayName(name, Some(local + "@" + domain)) == (if local != "" then local else DefaultName)
    ensures DisplayName(name, Some(local)) == (if local != "" then local else DefaultName)
  {
    Text.SplitAtFirst(local, '@', domain);
    assert local + "@" + domain == local + ['@'] + domain;
    Text.SplitNoSeparator(local, '@');
  }

  /** `getUserProfile`. */
  function GetUserProfile(userId: Option<string>, lookup: string -> LookupResult): (h: Handled<string>)
    ensures h.access.Some? <==> Truthy(userId)
    ensures h.access.Some? ==> h.access.value == userId.value
    ensures h.response.status in {200, 401, 404, 500}
  {
    if !Truthy(userId) then Handled(None, Response(401, Message(NotAuthenticated)))
    else
      var id := userId.value;
      var result := lookup(id);
      Handled(Some(id),
        match result
        case LookupThrew => Response(500, Message(ServerError))
        case LookupError(code) =>
          if code == NoRowCode then Response(404, Message(UserNotFound))
          else Response(500, Message(ProfileUnavailable))
        case Found(None) => Response(404, Message(UserDataNotFound))
        case Found(Some(row)) =>
          Response(200, Profile(row.id, Some(DisplayName(row.name, row.email)), row.email, row.createdAt)))
  }

  /** The order of the checks in `getUserProfile`: no user id is 401
      whatever the database holds; the code "PGRST116" and a missing row are
      404; any other database error or an exception is 500; a row is 200
      with its display name. */
  lemma GetStatuses(userId: Option<string>, lookup: string -> LookupResult)
    ensures var r := GetUserProfile(userId, lookup).response;
      && (r.status == 401 <==> !Truthy(userId))
      && (r.status == 404 <==>
            Truthy(userId) &&
            (lookup(userId.value) == LookupError(NoRowCode) || lookup(userId.value) == Found(None)))
      && (r.status == 500 <==>
            Truthy(userId) &&
            (lookup(userId.value) == LookupThrew ||
             (lookup(userId.value).LookupError? && lookup(userId.value).code != NoRowCode)))
      && (r.status == 200 <==> Truthy(userId) && lookup(userId.value).Found? && lookup(userId.value).row.Some?)
    ensures !Truthy(userId) ==> forall other: string -> LookupResult ::
      GetUserProfile(userId, other) == GetUserProfile(userId, lookup)
  {
  }

  /** A successful read echoes the row, with the display name in place of
      the stored name. */
  lemma GetEchoesRow(userId: Option<string>, lookup: string -> LookupResult)
    requires GetUserProfile(userId, lookup).response.status == 200
    ensures var row := lookup(userId.value).row.value;
      GetUserProfile(userId, lookup).response.body
        == Profile(row.id, Some(DisplayName(row.name, row.email)), row.email, row.createdAt)
  {
  }

  /** Whether the body's `name` passes `!name || name.trim().length === 0`
      without a 400, or throws: because a non-string has no `trim`, or
      because there is no body to read it from. */
  datatype NameCheck = BlankName | BadName | GoodName(trimmed: string)

  function CheckName(name: NameField): (c: NameCheck)
    ensures c.GoodName? ==> name.NameString? && c.trimmed != "" && c.trimmed == Text.Trim(name.s)
    ensures c.BadName? <==> name.NoBody? || name == NameOther(true)
    ensures c.BlankName? <==> name.NoName? || name == NameOther(false) || (name.NameString? && Text.Trim(name.s) == [])
  {
    match name
    case NoBody => BadName
    case NoName => BlankName
    case NameOther(truthy) => if truthy then BadName else BlankName
    case NameString(s) =>
      if s == "" || |Text.Trim(s)| == 0 then BlankName else GoodName(Text.Trim(s))
  }

  /** `updateUserProfile`. */
  function UpdateUserProfile(userId: Option<string>, name: NameField, update: (string, string) -> UpdateResult): (h: Handled<(string, string)>)
    ensures h.access.Some? ==> Truthy(userId) && h.access.value.0 == userId.value
    ensures h.response.status in {200, 400, 401, 500}
  {
    if name.NoBody? then Handled(None, Response(500, Message(ServerError)))
    else if !Truthy(userId) then Handled(None, Response(401, Message(NotAuthenticated)))
    else
      match CheckName(name)
      case BlankName => Handled(None, Response(400, Message(EmptyName)))
      case BadName => Handled(None, Response(500, Message(ServerError)))
      case GoodName(trimmed) =>
        var id := userId.value;
        Handled(Some((id, trimmed)),
          match update(id, trimmed)
          case UpdateThrew => Response(500, Message(ServerError))
          case UpdateError => Response(400, Message(UpdateFailed))
          case Updated(None) => Response(500, Message(ServerError))
          case Updated(Some(row)) => Response(200, Profile(row.id, row.name, row.email, row.createdAt)))
  }

  /** Reading `name` comes first: a request without a parsed body is 500
      with no write, whatever the user id. Then the user-id check: without an
      id the answer is 401 with no write, whatever the name and the database.
      Then a missing, empty or all-whitespace name is 400 with no write. */
  lemma UpdateChecksInOrder(userId: Option<string>, name: NameField, update: (string, string) -> UpdateResult)
    ensures name.NoBody? ==>
      UpdateUserProfile(userId, name, update) == Handled(None, Response(500, Message(ServerError)))
    ensures !name.NoBody? && !Truthy(userId) ==>
      UpdateUserProfile(userId, name, update) == Handled(None, Response(401, Message(NotAuthenticated)))
    ensures Truthy(userId) && (name.NoName? || name == NameOther(false) || (name.NameString? && Text.AllWhitespace(name.s))) ==>
      UpdateUserProfile(userId, name, update) == Handled(None, Response(400, Message(EmptyName)))
    ensures Truthy(userId) && name == NameOther(true) ==>
      UpdateUserProfile(userId, name, update) == Handled(None, Response(500, Message(ServerError)))
  {
    if name.NameString? {
      Text.TrimEmptyIffBlank(name.s);
    }
  }

  /** The order of the checks in `updateUserProfile`: a request without a
      parsed body is 500 before anything else; then no user id is 401;
      a missing, falsy or blank name is 400, and so is a write the database
      refuses; a truthy non-string name (whose `trim` throws), a throwing
      client and a write that returns no row are 500; a returned row is
      200. */
  lemma UpdateStatuses(userId: Option<string>, name: NameField, update: (string, string) -> UpdateResult)
    ensures var r := UpdateUserProfile(userId, name, update).response;
      var c := CheckName(name);
      && (r.status == 401 <==> !name.NoBody? && !Truthy(userId))
      && (r.status == 400 <==>
            Truthy(userId) &&
            (c.BlankName? || (c.GoodName? && update(userId.value, c.trimmed) == UpdateError)))
      && (r.status == 500 <==>
            name.NoBody? ||
            (Truthy(userId) &&
             (c.BadName? ||
              (c.GoodName? && (update(userId.value, c.trimmed) == UpdateThrew || update(userId.value, c.trimmed) == Updated(None))))))
      && (r.status == 200 <==>
            Truthy(userId) && c.GoodName? && update(userId.value, c.trimmed).Updated? && update(userId.value, c.trimmed).row.Some?)
  {
  }

  /** A name that is not blank is written trimmed, under the caller's id;
      the write is what decides the answer: an error is 400 "Profil
      güncellenemedi.", a row is 200 echoing it. */
  lemma UpdateWritesTrimmed(userId: Option<string>, s: string, update: (string, string) -> UpdateResult)
    requires Truthy(userId) && !Text.AllWhitespace(s)
    ensures var h := UpdateUserProfile(userId, NameString(s), update);
      && h.access == Some((userId.value, Text.Trim(s)))
      && Text.Trim(s) != ""
      && (update(userId.value, Text.Trim(s)) == UpdateError ==> h.response == Response(400, Message(UpdateFailed)))
      && (forall row :: update(userId.value, Text.Trim(s)) == Updated(Some(row)) ==>
            h.response == Response(200, Profile(row.id, row.name, row.email, row.createdAt)))
  {
    Text.TrimEmptyIffBlank(s);
  }

  /** Only the trimmed name matters: two names with the same trim get the
      same write and the same answer. */
  lemma UpdateSeesOnlyTrim(userId: Option<string>, s1: string, s2: string, update: (string, string) -> UpdateResult)
    requires Text.Trim(s1) == Text.Trim(s2)
    ensures UpdateUserProfile(userId, NameString(s1), update) == UpdateUserProfile(userId, NameString(s2), update)
  {
    assert CheckName(NameString(s1)) == CheckName(NameString(s2)) by {
      CheckNameByTrim(s1);
      CheckNameByTrim(s2);
    }
  }

  /** A string name passes or fails by its trim alone. */
  lemma CheckNameByTrim(s: string)
    ensures CheckName(NameString(s)) == if Text.Trim(s) == [] then BlankName else GoodName(Text.Trim(s))
  {
    if s == [] {
      assert Text.LeadingBlanks(s) == 0;
    }
  }
}
