/** The browser client's module-level state as one object: the session
    token, the month the calendar shows, the cached lists and maps, and the
    flags that keep a form from being submitted twice. The loaders, month
    navigation, logout, the calendar and the form actions are its methods.
    The reply to each request is a parameter of the method that consumes
    it, so the methods run in the order the client awaits them. */
module Session {
  import opened Wrappers
  import opened Text
  import opened JsValue
  import opened Dates
  import opened Helpers
  import opened Adherence

  /** What `await apiFetch(...)` yields: the reply's ok flag, status and
      parsed body (null when it did not parse), or a rejected fetch, which
      throws out of the awaiting function. */
  datatype Response = Reply(ok: bool, status: int, data: Json) | NetworkError

  /** The text of an input element read as `el?.value || ""`: None when
      the element is missing. */
  function FieldText(field: Option<string>): string {
    if field.None? then "" else field.value
  }

  /** The list a loader keeps: the body when the reply is ok and the body
      is an array, else the empty list. */
  function ArrayOrEmpty(r: Response): seq<Json>
    requires r.Reply?
  {
    if r.ok && r.data.Arr? then r.data.items else []
  }

  /** `clampInt(heightEl?.value || 0, 0, 300)`: an empty field reads as
      the number 0, whose string form is "0". */
  function HeightOf(text: string): (h: int)
    ensures 0 <= h <= 300
    ensures text != "" && ParseInt(text).Some? && 0 <= ParseInt(text).value <= 300 ==> h == ParseInt(text).value
    ensures text != "" && ParseInt(text) == None ==> h == 0
    ensures text == "" ==> h == 0
  {
    if text == "" then
      ParseUnsigned("0", "");
      assert "0" + "" == "0";
      ClampInt("0", 0, 300)
    else ClampInt(text, 0, 300)
  }

  datatype AuthStart = AuthIgnored | MissingFields | AuthSent(email: string, password: string)

  datatype ActionStart = ActionIgnored | EmptyName | AddSent(name: string)

  datatype ProfileStart = ProfileIgnored | ProfileSent(height: int, weight: Json, biotype: string)

  const LoginFailed := "Login inválido."
  const NoToken := "Servidor não retornou token."
  const ApiDown := "Erro ao conectar na API."
  const MissingCredentials := "Preencha email e senha."
  const LoggedIn := "Logado ✅"
  const LoginSessionFailed := "Sessão falhou. Tente novamente."
  const Registered := "Conta criada e logada ✅"
  const RegisterSessionFailed := "Conta criada, mas sessão falhou. Tente login."

  class Client {
    /** TOKEN: the bearer token sent with every request ("" when logged out). */
    var token: Json
    /** The "gym_token" entry of localStorage. */
    var stored: Option<string>
    /** ME: the body of the last successful `/me`. */
    var me: Json
    /** currentMonth, always the 1st of a month. */
    var cursor: YearMonth
    var supplements: seq<Json>
    var checkins: map<string, Json>
    var suppMap: map<string, Json>
    var workouts: seq<Json>
    var photos: seq<Json>
    var profile: Json
    /** The text of the login form's message line. */
    var authMsg: string
    var authBusy: bool
    var addSuppBusy: bool
    var profileBusy: bool

    ghost predicate Valid()
      reads this
    {
      cursor.Valid()
    }

    /** Script start: the stored token is read back and the cursor is the
        current month (`today`), everything else is empty. */
    constructor(storedToken: Option<string>, today: YearMonth)
      requires today.Valid()
      ensures Valid()
      ensures stored == storedToken && token == Str(FieldText(storedToken))
      ensures cursor == today && me == Null && profile == Null
      ensures supplements == [] && checkins == map[] && suppMap == map[]
      ensures workouts == [] && photos == []
      ensures authMsg == "" && !authBusy && !addSuppBusy && !profileBusy
    {
      stored := storedToken;
      token := Str(FieldText(storedToken));
      me := Null;
      cursor := today;
      supplements := [];
      checkins := map[];
      suppMap := map[];
      workouts := [];
      photos := [];
      profile := Null;
      authMsg := "";
      authBusy := false;
      addSuppBusy := false;
      profileBusy := false;
    }

    // -------------------------------------------------------------------
    // Loaders.

    /** loadMe: keeps the body of an ok reply and says whether it was ok. */
    method LoadMe(r: Response) returns (threw: bool, ok: bool)
      modifies this`me
      ensures threw <==> r.NetworkError?
      ensures ok <==> r.Reply? && r.ok
      ensures me == if ok then r.data else old(me)
    {
      if r.NetworkError? {
        threw, ok := true, false;
        return;
      }
      threw, ok := false, r.ok;
      if r.ok {
        me := r.data;
      }
    }

    /** loadSupplements. A rejected request leaves the list as it was. */
    method LoadSupplements(r: Response) returns (threw: bool)
      modifies this`supplements
      ensures threw <==> r.NetworkError?
      ensures supplements == if threw then old(supplements) else ArrayOrEmpty(r)
    {
      if r.NetworkError? {
        threw := true;
        return;
      }
      threw := false;
      if !r.ok {
        supplements := [];
        return;
      }
      supplements := if r.data.Arr? then r.data.items else [];
    }

    /** loadMonthCheckins: the map is emptied once the reply has arrived,
        then every row with a truthy `date` is filed under it. */
    method LoadMonthCheckins(r: Response) returns (threw: bool)
      modifies this`checkins
      ensures threw <==> r.NetworkError?
      ensures checkins == if threw then old(checkins) else CheckinRows(ArrayOrEmpty(r))
    {
      if r.NetworkError? {
        threw := true;
        return;
      }
      threw := false;
      checkins := map[];
      if r.ok && r.data.Arr? {
        var rows := r.data.items;
        var i := 0;
        while i < |rows|
          invariant 0 <= i <= |rows|
          invariant checkins == CheckinRows(rows[..i])
        {
          var row := rows[i];
          var date := Prop(row, "date");
          if Truthy(date) {
            checkins := checkins[ToStr(date) := Prop(row, "did_train")];
          }
          assert rows[..i + 1][..i] == rows[..i];
          i := i + 1;
        }
        assert rows[..|rows|] == rows;
      }
    }

    /** loadMonthSuppCheckins: the map is emptied once the reply has
        arrived, then the rows are filed under `date::supplement_id` until
        a nullish row, on which reading `row.date` throws. */
    method LoadMonthSuppCheckins(r: Response) returns (threw: bool)
      modifies this`suppMap
      ensures threw <==> r.NetworkError? || NullishFree(ArrayOrEmpty(r)) < |ArrayOrEmpty(r)|
      ensures r.NetworkError? ==> suppMap == old(suppMap)
      ensures r.Reply? ==>
                var rows := ArrayOrEmpty(r);
                suppMap == SuppRows(rows[..NullishFree(rows)])
    {
      if r.NetworkError? {
        threw := true;
        return;
      }
      threw := false;
      suppMap := map[];
      if r.ok && r.data.Arr? {
        var rows := r.data.items;
        var n := NullishFree(rows);
        var i := 0;
        while i < |rows|
          invariant 0 <= i <= n
          invariant suppMap == SuppRows(rows[..i])
        {
          var row := rows[i];
          if IsNullish(row) {
            threw := true;
            return;
          }
          suppMap := suppMap[ToStr(Prop(row, "date")) + "::" + ToStr(Prop(row, "supplement_id")) := Prop(row, "took")];
          SuppRowsStep(rows, i);
          i := i + 1;
        }
        assert rows == ArrayOrEmpty(r) && i == n;
      } else {
        assert ArrayOrEmpty(r) == [];
      }
    }

    /** loadWorkouts. */
    method LoadWorkouts(r: Response) returns (threw: bool)
      modifies this`workouts
      ensures threw <==> r.NetworkError?
      ensures workouts == if threw then old(workouts) else ArrayOrEmpty(r)
    {
      if r.NetworkError? {
        threw := true;
        return;
      }
      threw := false;
      workouts := if r.ok && r.data.Arr? then r.data.items else [];
    }

    /** loadProfile: a falsy body of an ok reply is stored as null. */
    method LoadProfile(r: Response) returns (threw: bool)
      modifies this`profile
      ensures threw <==> r.NetworkError?
      ensures threw ==> profile == old(profile)
      ensures !threw ==> (profile == if r.ok && Truthy(r.data) then r.data else Null)
    {
      if r.NetworkError? {
        threw := true;
        return;
      }
      threw := false;
      profile := if r.ok then Or(r.data, Null) else Null;
    }

    /** loadPhotos: the list, and whether the listing route answered. */
    method LoadPhotos(r: Response) returns (threw: bool, ok: bool)
      modifies this`photos
      ensures threw <==> r.NetworkError?
      ensures ok <==> r.Reply? && r.ok
      ensures photos == if threw then old(photos) else ArrayOrEmpty(r)
    {
      if r.NetworkError? {
        threw, ok := true, false;
        return;
      }
      threw := false;
      if !r.ok {
        photos := [];
        ok := false;
        return;
      }
      photos := if r.data.Arr? then r.data.items else [];
      ok := true;
    }

    // -------------------------------------------------------------------
    // Calendar and navigation.

    /** renderCalendar: the grid for the cursor's month. A nullish entry
        of SUPPLEMENTS throws on the first day, before its cell is added,
        so only the padding is drawn. */
    method RenderCalendar() returns (cells: seq<Cell>, threw: bool)
      requires Valid()
      ensures var y := GridYear(cursor.year);
              threw ==> cells == Pads(Weekday(y, cursor.month, 1))
      ensures threw <==> HasNullish(supplements)
      ensures !threw ==> cells == CalendarCells(cursor.year, cursor.month, checkins, supplements, suppMap)
    {
      var y := GridYear(cursor.year);
      var m := cursor.month;
      var start := Weekday(y, m, 1);
      var n := DaysInMonth(y, m);
      threw := false;
      cells := PadCells(start);
      var day := 1;
      while day <= n
        invariant 1 <= day <= n + 1
        invariant cells == Pads(start) + DayCells(y, m, day - 1, checkins, supplements, suppMap)
        invariant day > 1 ==> !HasNullish(supplements)
      {
        var key := IsoDate(y, m, day);
        var tags;
        tags, threw := DayTags(checkins, supplements, suppMap, key);
        if threw {
          return;
        }
        assert Day(day, key, tags) == DayCell(y, m, day, checkins, supplements, suppMap);
        AppendAssoc(Pads(start), DayCells(y, m, day - 1, checkins, supplements, suppMap), [Day(day, key, tags)]);
        cells := cells + [Day(day, key, tags)];
        day := day + 1;
      }
    }

    /** refreshCalendarAndDashboard: the three loaders in turn, then the
        calendar; the first one that throws ends the refresh. */
    method Refresh(rSupps: Response, rCheckins: Response, rSuppCheckins: Response) returns (threw: bool, cells: seq<Cell>)
      requires Valid()
      modifies this`supplements, this`checkins, this`suppMap
      ensures rSupps.Reply? ==> supplements == ArrayOrEmpty(rSupps)
      ensures rSupps.Reply? && rCheckins.Reply? ==> checkins == CheckinRows(ArrayOrEmpty(rCheckins))
      ensures rSupps.Reply? && rCheckins.Reply? && rSuppCheckins.Reply? ==>
                var rows := ArrayOrEmpty(rSuppCheckins);
                suppMap == SuppRows(rows[..NullishFree(rows)])
      ensures rSupps.NetworkError? ==> supplements == old(supplements)
      ensures rSupps.NetworkError? || rCheckins.NetworkError? ==> checkins == old(checkins)
      ensures rSupps.NetworkError? || rCheckins.NetworkError? || rSuppCheckins.NetworkError? ==> suppMap == old(suppMap)
      ensures !threw ==> cells == CalendarCells(cursor.year, cursor.month, checkins, supplements, suppMap)
      ensures threw <==>
                || rSupps.NetworkError? || rCheckins.NetworkError? || rSuppCheckins.NetworkError?
                || HasNullish(ArrayOrEmpty(rSuppCheckins)) || HasNullish(ArrayOrEmpty(rSupps))
    {
      cells := [];
      threw := LoadSupplements(rSupps);
      if threw {
        return;
      }
      threw := LoadMonthCheckins(rCheckins);
      if threw {
        return;
      }
      threw := LoadMonthSuppCheckins(rSuppCheckins);
      if threw {
        return;
      }
      cells, threw := RenderCalendar();
    }

    /** prevMonth: the cursor moves back one month. */
    method PrevMonth()
      requires Valid()
      modifies this`cursor
      ensures Valid() && cursor == Prev(old(cursor))
      ensures Index(cursor) == Index(old(cursor)) - 1
    {
      cursor := Prev(cursor);
    }

    /** nextMonth: the cursor moves forward one month. */
    method NextMonth()
      requires Valid()
      modifies this`cursor
      ensures Valid() && cursor == Next(old(cursor))
      ensures Index(cursor) == Index(old(cursor)) + 1
    {
      cursor := Next(cursor);
    }

    /** doLogout: forgets the token and every cached list, map and profile;
        the cursor and the busy flags are kept. */
    method Logout()
      modifies this`token, this`stored, this`me, this`supplements, this`checkins, this`suppMap
      modifies this`workouts, this`photos, this`profile, this`authMsg
      ensures token == Str("") && stored == None && me == Null && profile == Null
      ensures supplements == [] && checkins == map[] && suppMap == map[]
      ensures workouts == [] && photos == [] && authMsg == ""
    {
      stored := None;
      token := Str("");
      me := Null;
      supplements := [];
      checkins := map[];
      suppMap := map[];
      workouts := [];
      photos := [];
      profile := Null;
      authMsg := "";
    }

    // -------------------------------------------------------------------
    // Login and registration.

    /** The first, synchronous part of doLogin and doRegister: a click
        while a request is in flight is ignored; an empty email (after
        trimming) or password is refused without a request. */
    method BeginAuth(emailField: Option<string>, passwordField: Option<string>) returns (s: AuthStart)
      modifies this`authBusy, this`authMsg
      ensures old(authBusy) ==> s == AuthIgnored && authBusy && authMsg == old(authMsg)
      ensures !old(authBusy) ==>
                var email := JsTrim(FieldText(emailField));
                var password := FieldText(passwordField);
                if email == "" || password == "" then
                  s == MissingFields && !authBusy && authMsg == MissingCredentials
                else
                  s == AuthSent(email, password) && authBusy && authMsg == ""
    {
      if authBusy {
        return AuthIgnored;
      }
      authBusy := true;
      authMsg := "";
      var email := JsTrim(FieldText(emailField));
      var password := FieldText(passwordField);
      if email == "" || password == "" {
        authMsg := MissingCredentials;
        authBusy := false;
        return MissingFields;
      }
      s := AuthSent(email, password);
    }

    /** Adopts the token of a successful login, then checks it with `/me`:
        a failed check forgets it again. */
    method AdoptToken(t: Json, meReply: Response, sessionFailed: string) returns (threw: bool, loggedIn: bool)
      modifies this`token, this`stored, this`authMsg
      ensures threw <==> meReply.NetworkError?
      ensures loggedIn <==> meReply.Reply? && meReply.ok
      ensures threw ==> token == t && stored == Some(ToStr(t)) && authMsg == old(authMsg)
      ensures loggedIn ==> token == t && stored == Some(ToStr(t))
      ensures meReply.Reply? && !meReply.ok ==> token == Str("") && stored == None && authMsg == sessionFailed
    {
      token := t;
      stored := Some(ToStr(t));
      if meReply.NetworkError? {
        return true, false;
      }
      threw := false;
      if !meReply.ok {
        stored := None;
        token := Str("");
        authMsg := sessionFailed;
        loggedIn := false;
        return;
      }
      loggedIn := true;
    }

    /** The rest of doLogin, once the `/login` and `/me` replies are in: a
        rejected request ends in the connection message, and every path
        clears the busy flag. */
    method FinishLogin(login: Response, meReply: Response, stringify: Json -> string) returns (loggedIn: bool)
      modifies this`token, this`stored, this`authMsg, this`authBusy
      ensures !authBusy
      ensures loggedIn <==> login.Reply? && login.ok && Truthy(Prop(login.data, "token")) && meReply.Reply? && meReply.ok
      ensures loggedIn ==> token == Prop(login.data, "token") && stored == Some(ToStr(token)) && authMsg == LoggedIn
      ensures login.Reply? && login.ok && Truthy(Prop(login.data, "token")) && meReply.Reply? && !meReply.ok ==>
                token == Str("") && stored == None && authMsg == LoginSessionFailed
      ensures login.Reply? && login.ok && Truthy(Prop(login.data, "token")) && meReply.NetworkError? ==>
                authMsg == ApiDown && token == Prop(login.data, "token") && stored == Some(ToStr(token))
      ensures login.NetworkError? ==> authMsg == ApiDown && token == old(token) && stored == old(stored)
      ensures login.Reply? && !login.ok ==>
                authMsg == ErrorText(login.data, LoginFailed, stringify) && token == old(token) && stored == old(stored)
      ensures login.Reply? && login.ok && !Truthy(Prop(login.data, "token")) ==>
                authMsg == NoToken && token == old(token) && stored == old(stored)
    {
      loggedIn := false;
      if login.NetworkError? {
        authMsg := ApiDown;
      } else if !login.ok {
        authMsg := ErrorText(login.data, LoginFailed, stringify);
      } else if !Truthy(Prop(login.data, "token")) {
        authMsg := NoToken;
      } else {
        var threw;
        threw, loggedIn := AdoptToken(Prop(login.data, "token"), meReply, LoginSessionFailed);
        if threw {
          authMsg := ApiDown;
        } else if loggedIn {
          authMsg := LoggedIn;
        }
      }
      authBusy := false;
    }

    /** The rest of doRegister, once the `/register`, `/login` and `/me`
        replies are in: the account is created, then logged into. */
    method FinishRegister(register: Response, login: Response, meReply: Response, stringify: Json -> string)
      returns (loggedIn: bool)
      modifies this`token, this`stored, this`authMsg, this`authBusy
      ensures !authBusy
      ensures loggedIn <==>
                && register.Reply? && register.ok
                && login.Reply? && login.ok && Truthy(Prop(login.data, "token"))
                && meReply.Reply? && meReply.ok
      ensures loggedIn ==> token == Prop(login.data, "token") && stored == Some(ToStr(token)) && authMsg == Registered
      ensures register.Reply? && !register.ok ==>
                && authMsg == ErrorText(register.data, "Falha ao criar conta.", stringify)
                && token == old(token) && stored == old(stored)
      ensures register.Reply? && register.ok && login.Reply? && !(login.ok && Truthy(Prop(login.data, "token"))) ==>
                && authMsg == ErrorText(login.data, "Conta criada, mas falhou ao logar.", stringify)
                && token == old(token) && stored == old(stored)
      ensures register.NetworkError? || (register.Reply? && register.ok && login.NetworkError?) ==>
                authMsg == ApiDown && token == old(token) && stored == old(stored)
      ensures && register.Reply? && register.ok && login.Reply? && login.ok && Truthy(Prop(login.data, "token"))
              && meReply.Reply? && !meReply.ok ==>
                token == Str("") && stored == None && authMsg == RegisterSessionFailed
      ensures && register.Reply? && register.ok && login.Reply? && login.ok && Truthy(Prop(login.data, "token"))
              && meReply.NetworkError? ==>
                authMsg == ApiDown && token == Prop(login.data, "token") && stored == Some(ToStr(token))
    {
      loggedIn := false;
      if register.NetworkError? {
        authMsg := ApiDown;
      } else if !register.ok {
        authMsg := ErrorText(register.data, "Falha ao criar conta.", stringify);
      } else if login.NetworkError? {
        authMsg := ApiDown;
      } else if !login.ok || !Truthy(Prop(login.data, "token")) {
        authMsg := ErrorText(login.data, "Conta criada, mas falhou ao logar.", stringify);
      } else {
        var threw;
        threw, loggedIn := AdoptToken(Prop(login.data, "token"), meReply, RegisterSessionFailed);
        if threw {
          authMsg := ApiDown;
        } else if loggedIn {
          authMsg := Registered;
        }
      }
      authBusy := false;
    }

    // -------------------------------------------------------------------
    // Supplements and profile forms.

    /** The synchronous part of addSupplement. */
    method BeginAddSupplement(nameField: Option<string>) returns (s: ActionStart)
      modifies this`addSuppBusy
      ensures old(addSuppBusy) ==> s == ActionIgnored && addSuppBusy
      ensures !old(addSuppBusy) ==>
                var name := JsTrim(FieldText(nameField));
                if name == "" then s == EmptyName && !addSuppBusy else s == AddSent(name) && addSuppBusy
    {
      if addSuppBusy {
        return ActionIgnored;
      }
      addSuppBusy := true;
      var name := JsTrim(FieldText(nameField));
      if name == "" {
        addSuppBusy := false;
        return EmptyName;
      }
      s := AddSent(name);
    }

    /** The end of addSupplement once the reply (and, after an ok reply,
        the refresh) is over: the alert shown, if any. The flag is cleared
        on every path, the rejected request and the failed refresh
        included. */
    method FinishAddSupplement(r: Response, stringify: Json -> string) returns (alert: Option<string>)
      modifies this`addSuppBusy
      ensures !addSuppBusy
      ensures alert.Some? <==> r.Reply? && !r.ok
      ensures alert.Some? ==> alert.value == ErrorText(r.data, "Falha ao adicionar suplemento.", stringify)
    {
      alert := None;
      if r.Reply? && !r.ok {
        alert := Some(ErrorText(r.data, "Falha ao adicionar suplemento.", stringify));
      }
      addSuppBusy := false;
    }

    /** The synchronous part of saveProfile: the height field is read with
        clampInt into 0..300 (an empty field reads as 0); the weight is the
        number the weight field converts to. */
    method BeginSaveProfile(heightField: Option<string>, weight: Json, biotypeField: Option<string>)
      returns (s: ProfileStart)
      modifies this`profileBusy
      ensures old(profileBusy) ==> s == ProfileIgnored && profileBusy
      ensures !old(profileBusy) ==> s.ProfileSent? && profileBusy
      ensures s.ProfileSent? ==> 0 <= s.height <= 300 && s.weight == weight && s.biotype == FieldText(biotypeField)
      ensures s.ProfileSent? ==> s.height == HeightOf(FieldText(heightField))
    {
      if profileBusy {
        return ProfileIgnored;
      }
      profileBusy := true;
      s := ProfileSent(HeightOf(FieldText(heightField)), weight, FieldText(biotypeField));
    }

    /** The end of saveProfile: an ok reply stores the profile that was
        sent. The flag is cleared on every path. */
    method FinishSaveProfile(sent: ProfileStart, r: Response, stringify: Json -> string) returns (alert: Option<string>)
      requires sent.ProfileSent?
      modifies this`profile, this`profileBusy
      ensures !profileBusy
      ensures r.Reply? && r.ok ==>
                profile == Obj(map["height" := Num(sent.height), "weight" := sent.weight, "biotype" := Str(sent.biotype)])
                && alert == Some("Salvo ✅")
      ensures !(r.Reply? && r.ok) ==> profile == old(profile)
      ensures r.Reply? && !r.ok ==> alert == Some(ErrorText(r.data, "Falha ao salvar perfil.", stringify))
      ensures r.NetworkError? ==> alert == None
    {
      alert := None;
      if r.Reply? {
        if !r.ok {
          alert := Some(ErrorText(r.data, "Falha ao salvar perfil.", stringify));
        } else {
          profile := Obj(map["height" := Num(sent.height), "weight" := sent.weight, "biotype" := Str(sent.biotype)]);
          alert := Some("Salvo ✅");
        }
      }
      profileBusy := false;
    }
  }

  /** The tags of the day `key`: the training tag, then one tag per
      supplement with a stored 1 or 0, in list order; `s.id` throws on a
      nullish supplement. */
  method DayTags(checkins: map<string, Json>, supplements: seq<Json>, suppMap: map<string, Json>, key: string)
    returns (tags: seq<Tag>, threw: bool)
    ensures threw <==> HasNullish(supplements)
    ensures !threw ==> tags == TrainTags(checkins, key) + SuppTags(supplements, suppMap, key)
  {
    threw := false;
    var train := TrainingTag(checkins, key);
    tags := train;
    var j := 0;
    while j < |supplements|
      invariant 0 <= j <= |supplements|
      invariant tags == train + SuppTags(supplements[..j], suppMap, key)
      invariant j <= NullishFree(supplements)
    {
      var s := supplements[j];
      if IsNullish(s) {
        threw := true;
        return;
      }
      var added := SupplementTag(s, suppMap, key);
      AppendAssoc(train, SuppTags(supplements[..j], suppMap, key), added);
      tags := tags + added;
      SuppTagsStep(supplements, j, suppMap, key);
      j := j + 1;
    }
    assert supplements[..|supplements|] == supplements;
  }

  /** The training tag of the day `key`: ✅ for a stored 1, ❌ for a
      stored 0. */
  method TrainingTag(checkins: map<string, Json>, key: string) returns (tags: seq<Tag>)
    ensures tags == TrainTags(checkins, key)
  {
    tags := [];
    var tr := Lookup(checkins, key);
    if tr == Num(1) {
      tags := tags + [Trained(Done)];
    }
    if tr == Num(0) {
      tags := tags + [Trained(Missed)];
    }
  }

  /** The body of the `SUPPLEMENTS.forEach` callback for one supplement:
      the tags it adds to the day. */
  method SupplementTag(s: Json, suppMap: map<string, Json>, key: string) returns (added: seq<Tag>)
    ensures added == SuppTag(s, suppMap, key)
  {
    added := [];
    var v := Lookup(suppMap, key + "::" + ToStr(Prop(s, "id")));
    if v == Num(1) {
      added := added + [TookSupp(ToStr(Prop(s, "name")), Done)];
    }
    if v == Num(0) {
      added := added + [TookSupp(ToStr(Prop(s, "name")), Missed)];
    }
  }

  lemma AppendAssoc<T>(a: seq<T>, b: seq<T>, c: seq<T>)
    ensures (a + b) + c == a + (b + c)
  {
  }

  /** The blank cells before the 1st of the month. */
  method PadCells(n: nat) returns (cells: seq<Cell>)
    ensures cells == Pads(n)
  {
    cells := [];
    var i := 0;
    while i < n
      invariant 0 <= i <= n
      invariant cells == Pads(i)
    {
      cells := cells + [Pad];
      i := i + 1;
    }
  }

  // ---------------------------------------------------------------------
  // The busy flags as the code leaves them.

  /** addSuppBusy after addSupplement as written: the flag is cleared only
      on the two paths that reach `addSuppBusy = false`; a rejected request
      or a refresh that throws leaves it set. */
  function AddSuppBusyAsWritten(r: Response, refreshThrew: bool): bool {
    match r
    case NetworkError => true
    case Reply(ok, _, _) => ok && refreshThrew
  }

  /** profileBusy after saveProfile as written. */
  function ProfileBusyAsWritten(r: Response): bool {
    r.NetworkError?
  }

  /** One failed request leaves the flag set, and with it every later
      click is ignored (BeginAddSupplement, BeginSaveProfile). */
  lemma BusyFlagsStuckAsWritten()
    ensures AddSuppBusyAsWritten(NetworkError, false)
    ensures AddSuppBusyAsWritten(Reply(true, 200, Null), true)
    ensures ProfileBusyAsWritten(NetworkError)
    ensures !AddSuppBusyAsWritten(Reply(false, 400, Null), false) && !ProfileBusyAsWritten(Reply(true, 200, Null))
  {
  }
}
