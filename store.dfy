/** The service's record store: the SQLite tables as maps keyed by their
    UNIQUE columns, and each endpoint that reads or writes them as a member
    of `Store`. Every endpoint but register and login receives the caller's
    id, already established by auth_user. */
module Backend {
  import opened Wrappers
  import opened Text
  import opened Auth
  import opened Reco
  import opened SqlLike
  import opened Photos

  /** A `users` row: the id and the password hash, keyed by the e-mail
      address (UNIQUE). */
  datatype User = User(id: int, passwordHash: string)

  /** A `profile` row, keyed by user id (PRIMARY KEY). */
  datatype ProfileRow = ProfileRow(heightCm: real, weightKg: real, biotype: string, goal: string)

  /** A `workouts` row, keyed by its id. */
  datatype WorkoutRow = WorkoutRow(userId: int, title: string, split: string, dataJson: string)

  /** A `photos` row. */
  datatype PhotoRow = PhotoRow(userId: int, filename: string, takenDay: string, note: string)

  /** One element of the `supp` list get_month_checkins returns. */
  datatype SuppCheckinRow = SuppCheckinRow(day: string, name: string, took: int)

  /** The body of get_month_checkins: `trained` maps a day to its 0/1
      flag; the `supp` rows come in no particular order. */
  datatype MonthView = MonthView(trained: map<string, int>, supp: set<SuppCheckinRow>)

  const ShortPasswordDetail := "Senha muito curta."
  const EmailTakenDetail := "Email já existe."
  const BadLoginDetail := "Login inválido."
  const BadNameDetail := "Nome inválido."
  const BadJsonDetail := "data_json inválido."
  const NoWorkoutDetail := "Treino não encontrado."

  /** `1 if v else 0`: the stored form of the trained and took flags. */
  function Flag(v: int): (b: int)
    ensures b == 0 || b == 1
    ensures b == 1 <==> v != 0
  {
    if v != 0 then 1 else 0
  }

  /** The pattern get_month_checkins matches days against. */
  function MonthPattern(month: string): string {
    month + "-%"
  }

  predicate NoWildcards(s: string) {
    forall i :: 0 <= i < |s| ==> !IsWildcard(s[i])
  }

  ghost predicate UsersValid(users: map<string, User>, nextId: int) {
    && nextId >= 1
    && (forall e :: e in users ==> 1 <= users[e].id < nextId)
    && (forall e, f :: e in users && f in users && users[e].id == users[f].id ==> e == f)
    && (forall e :: e in users ==> IsLowerCase(e) && Stripped(e))
  }

  /** s has no blank at either end. */
  predicate Stripped(s: string) {
    s == [] || (!IsPySpace(s[0]) && !IsPySpace(s[|s| - 1]))
  }

  ghost predicate SupplementsValid(supplements: set<(int, string)>) {
    forall k :: k in supplements ==> k.1 != [] && Stripped(k.1)
  }

  ghost predicate FlagsValid<K>(m: map<K, int>) {
    forall k :: k in m ==> m[k] == 0 || m[k] == 1
  }

  /** Registering a new normalised address under the next id keeps the
      users table valid. */
  lemma UsersValidStep(users: map<string, User>, nextId: int, e: string, hashed: string)
    requires UsersValid(users, nextId) && e !in users && IsLowerCase(e) && Stripped(e)
    ensures UsersValid(users[e := User(nextId, hashed)], nextId + 1)
  {
    var u := users[e := User(nextId, hashed)];
    forall f | f in u ensures 1 <= u[f].id < nextId + 1 && IsLowerCase(f) && Stripped(f) {
      if f != e { assert u[f] == users[f]; }
    }
    forall f | f in u && f != e ensures u[f].id < nextId {
      assert u[f] == users[f];
    }
    forall f, g | f in u && g in u && u[f].id == u[g].id ensures f == g {
      if f != e && g != e {
        assert u[f] == users[f] && u[g] == users[g];
      }
    }
  }

  lemma SupplementsValidStep(supplements: set<(int, string)>, userId: int, n: string)
    requires SupplementsValid(supplements) && n != [] && Stripped(n)
    ensures SupplementsValid(supplements + {(userId, n)})
  {
    forall k | k in supplements + {(userId, n)} ensures k.1 != [] && Stripped(k.1) {
      if k !in supplements { assert k == (userId, n); }
    }
  }

  class Store {
    /** users: e-mail (UNIQUE) to id and password hash. */
    var users: map<string, User>
    /** The next AUTOINCREMENT id of users. */
    var nextUserId: int
    /** profile: one row per user. */
    var profiles: map<int, ProfileRow>
    /** supplements: UNIQUE(user_id, name). */
    var supplements: set<(int, string)>
    /** checkins: UNIQUE(user_id, day) to trained. */
    var checkins: map<(int, string), int>
    /** supplement_checkins: UNIQUE(user_id, day, supplement_name) to took. */
    var suppCheckins: map<(int, string, string), int>
    /** workouts by id. */
    var workouts: map<int, WorkoutRow>
    /** The next AUTOINCREMENT id of workouts. */
    var nextWorkoutId: int
    /** photos, in insertion order. */
    var photos: seq<PhotoRow>

    /** What the endpoints keep true: ids are positive, below the next id
        and distinct; addresses are stored lower-case and stripped;
        supplement names are stored stripped and non-empty; flags are 0 or 1. */
    ghost predicate Valid()
      reads this
    {
      && UsersValid(users, nextUserId)
      && SupplementsValid(supplements)
      && FlagsValid(checkins) && FlagsValid(suppCheckins)
      && nextWorkoutId >= 1 && (forall w :: w in workouts ==> 1 <= w < nextWorkoutId)
    }

    /** A fresh database: every table empty. */
    constructor()
      ensures Valid()
      ensures users == map[] && profiles == map[] && supplements == {}
      ensures checkins == map[] && suppCheckins == map[] && workouts == map[] && photos == []
    {
      users := map[];
      nextUserId := 1;
      profiles := map[];
      supplements := {};
      checkins := map[];
      suppCheckins := map[];
      workouts := map[];
      nextWorkoutId := 1;
      photos := [];
    }

    /** register: normalises the address, refuses a short password before
        touching the table, then inserts the user unless the address is
        taken. `hashed` is the bcrypt hash of the password, computed
        outside the model. The result is the new id the token is made
        for. */
    method Register(email: string, password: string, hashed: string) returns (r: Result<int, HttpError>)
      requires Valid()
      modifies this`users, this`nextUserId
      ensures Valid()
      ensures !PasswordAccepted(password) ==>
                r == Err(HttpError(400, ShortPasswordDetail)) && users == old(users) && nextUserId == old(nextUserId)
      ensures PasswordAccepted(password) && NormalizeEmail(email) in old(users) ==>
                r == Err(HttpError(400, EmailTakenDetail)) && users == old(users) && nextUserId == old(nextUserId)
      ensures PasswordAccepted(password) && NormalizeEmail(email) !in old(users) ==>
                && r == Ok(old(nextUserId))
                && users == old(users)[NormalizeEmail(email) := User(old(nextUserId), hashed)]
                && nextUserId == old(nextUserId) + 1
    {
      var e := NormalizeEmail(email);
      if !PasswordAccepted(password) {
        return Err(HttpError(400, ShortPasswordDetail));
      }
      if e in users {
        return Err(HttpError(400, EmailTakenDetail));
      }
      UsersValidStep(users, nextUserId, e, hashed);
      users := users[e := User(nextUserId, hashed)];
      r := Ok(nextUserId);
      nextUserId := nextUserId + 1;
    }

    /** login: the id stored for the normalised address, when `verify`
        (bcrypt's check of a password against a hash) accepts the
        password. */
    function Login(email: string, password: string, verify: (string, string) -> bool): (r: Result<int, HttpError>)
      reads this
      ensures var e := NormalizeEmail(email);
              && (r.Ok? <==> e in users && verify(password, users[e].passwordHash))
              && (r.Ok? ==> r.value == users[e].id)
              && (r.Err? ==> r.error == HttpError(401, BadLoginDetail))
    {
      var e := NormalizeEmail(email);
      if e !in users || !verify(password, users[e].passwordHash) then Err(HttpError(401, BadLoginDetail))
      else Ok(users[e].id)
    }

    /** save_profile: inserts or replaces the caller's profile row and
        answers with the recommendation for the posted values. */
    method SaveProfile(userId: int, heightCm: real, weightKg: real, biotype: string, goal: string)
      returns (r: RecoResult)
      modifies this`profiles
      ensures profiles == old(profiles)[userId := ProfileRow(heightCm, weightKg, biotype, goal)]
      ensures GetProfile(userId) == Some(ProfileRow(heightCm, weightKg, biotype, goal))
      ensures r == ComputeReco(heightCm, weightKg, Some(biotype), Some(goal))
    {
      profiles := profiles[userId := ProfileRow(heightCm, weightKg, biotype, goal)];
      r := ComputeReco(heightCm, weightKg, Some(biotype), Some(goal));
    }

    /** get_profile: the caller's row, None standing for the empty body. */
    function GetProfile(userId: int): (r: Option<ProfileRow>)
      reads this
      ensures r.Some? <==> userId in profiles
      ensures r.Some? ==> r.value == profiles[userId]
    {
      if userId in profiles then Some(profiles[userId]) else None
    }

    /** add_supp: strips the name, refuses an empty one, and otherwise
        inserts (user, name), ignoring a duplicate. */
    method AddSupp(userId: int, name: string) returns (r: Result<(), HttpError>)
      requires Valid()
      modifies this`supplements
      ensures Valid()
      ensures PyStrip(name) == [] ==>
                r == Err(HttpError(400, BadNameDetail)) && supplements == old(supplements)
      ensures PyStrip(name) != [] ==>
                r == Ok(()) && supplements == old(supplements) + {(userId, PyStrip(name))}
      ensures (userId, PyStrip(name)) in old(supplements) ==> supplements == old(supplements)
    {
      var n := PyStrip(name);
      if n == [] {
        return Err(HttpError(400, BadNameDetail));
      }
      SupplementsValidStep(supplements, userId, n);
      supplements := supplements + {(userId, n)};
      r := Ok(());
    }

    /** list_supp: the caller's supplement names in ascending code-point
        order (ORDER BY name under the BINARY collation), each once. The
        loop stands for the query engine's scan and sort. */
    method ListSupp(userId: int) returns (items: seq<string>)
      ensures StrictlySorted(items)
      ensures forall n :: n in items <==> (userId, n) in supplements
    {
      items := [];
      var rest := supplements;
      while rest != {}
        invariant rest <= supplements
        invariant StrictlySorted(items)
        invariant forall n :: n in items <==> (userId, n) in supplements - rest
        decreases |rest|
      {
        var row :| row in rest;
        if row.0 == userId {
          items := Insert(items, row.1);
        }
        rest := rest - {row};
      }
    }

    /** set_checkin: one row per (user, day), its flag overwritten. */
    method SetCheckin(userId: int, day: string, trained: int)
      requires Valid()
      modifies this`checkins
      ensures Valid()
      ensures checkins == old(checkins)[(userId, day) := Flag(trained)]
    {
      checkins := checkins[(userId, day) := Flag(trained)];
    }

    /** set_supp_checkin: one row per (user, day, supplement name), its
        flag overwritten. */
    method SetSuppCheckin(userId: int, day: string, supplementName: string, took: int)
      requires Valid()
      modifies this`suppCheckins
      ensures Valid()
      ensures suppCheckins == old(suppCheckins)[(userId, day, supplementName) := Flag(took)]
    {
      suppCheckins := suppCheckins[(userId, day, supplementName) := Flag(took)];
    }

    /** get_month_checkins: the caller's rows whose day is LIKE
        `<month>-%`. */
    function MonthCheckins(userId: int, month: string): (r: MonthView)
      reads this
      ensures forall d :: d in r.trained <==> (userId, d) in checkins && Like(d, MonthPattern(month))
      ensures forall d :: d in r.trained ==> r.trained[d] == checkins[(userId, d)]
      ensures forall row :: row in r.supp <==>
                var k := (userId, row.day, row.name);
                k in suppCheckins && Like(row.day, MonthPattern(month)) && suppCheckins[k] == row.took
    {
      var p := MonthPattern(month);
      var trained := map k | k in checkins && k.0 == userId && Like(k.1, p) :: k.1 := checkins[k];
      var supp := set k | k in suppCheckins && k.0 == userId && Like(k.1, p) ::
                    SuppCheckinRow(k.1, k.2, suppCheckins[k]);
      assert forall d :: (userId, d) in checkins && Like(d, p) ==> d in trained by {
        forall d | (userId, d) in checkins && Like(d, p) ensures d in trained {
          var k := (userId, d);
          assert k.1 == d;
        }
      }
      assert forall row: SuppCheckinRow ::
               var k := (userId, row.day, row.name);
               k in suppCheckins && Like(row.day, p) && suppCheckins[k] == row.took ==> row in supp by {
        forall row: SuppCheckinRow |
          var k := (userId, row.day, row.name);
          k in suppCheckins && Like(row.day, p) && suppCheckins[k] == row.took
          ensures row in supp
        {
          var k := (userId, row.day, row.name);
          assert SuppCheckinRow(k.1, k.2, suppCheckins[k]) == row;
        }
      }
      MonthView(trained, supp)
    }

    /** save_workout: refuses a `data_json` that is not JSON (`isJson`
        stands for json.loads succeeding), otherwise adds the row under the
        next id. */
    method SaveWorkout(userId: int, title: string, split: string, dataJson: string, isJson: string -> bool)
      returns (r: Result<int, HttpError>)
      requires Valid()
      modifies this`workouts, this`nextWorkoutId
      ensures Valid()
      ensures !isJson(dataJson) ==>
                r == Err(HttpError(400, BadJsonDetail)) && workouts == old(workouts) && nextWorkoutId == old(nextWorkoutId)
      ensures isJson(dataJson) ==>
                && r == Ok(old(nextWorkoutId))
                && workouts == old(workouts)[old(nextWorkoutId) := WorkoutRow(userId, title, split, dataJson)]
                && nextWorkoutId == old(nextWorkoutId) + 1
      ensures r.Ok? ==> GetWorkout(r.value, userId) == Ok(WorkoutRow(userId, title, split, dataJson))
    {
      if !isJson(dataJson) {
        return Err(HttpError(400, BadJsonDetail));
      }
      workouts := workouts[nextWorkoutId := WorkoutRow(userId, title, split, dataJson)];
      r := Ok(nextWorkoutId);
      nextWorkoutId := nextWorkoutId + 1;
    }

    /** get_workout: the row with that id, only when it is the caller's;
        404 otherwise, whether the row is missing or someone else's. */
    function GetWorkout(workoutId: int, userId: int): (r: Result<WorkoutRow, HttpError>)
      reads this
      ensures r.Ok? <==> workoutId in workouts && workouts[workoutId].userId == userId
      ensures r.Ok? ==> r.value == workouts[workoutId]
      ensures r.Err? ==> r.error == HttpError(404, NoWorkoutDetail)
    {
      if workoutId in workouts && workouts[workoutId].userId == userId then Ok(workouts[workoutId])
      else Err(HttpError(404, NoWorkoutDetail))
    }

    /** upload_photo: validates the upload and records the photo under its
        new name. `size` is the length of the content and `ts` the upload
        time as `%Y%m%d_%H%M%S`; writing the file is not modelled. The
        result is the stored name. */
    method UploadPhoto(userId: int, takenDay: string, note: string, filename: Option<string>, size: nat, ts: string)
      returns (r: Result<string, HttpError>)
      modifies this`photos
      ensures r == PhotoName(filename, size, takenDay, ts)
      ensures r.Ok? ==> photos == old(photos) + [PhotoRow(userId, r.value, takenDay, note)]
      ensures r.Err? ==> photos == old(photos)
    {
      r := PhotoName(filename, size, takenDay, ts);
      if r.Ok? {
        photos := photos + [PhotoRow(userId, r.value, takenDay, note)];
      }
    }
  }

  /** The address is matched after normalisation, so a login typed in
      another case, or with leading blanks, reaches the same account. */
  lemma LoginIgnoresCaseAndBlanks(s: Store, pad: string, email: string, password: string, verify: (string, string) -> bool)
    requires forall i :: 0 <= i < |pad| ==> IsPySpace(pad[i])
    ensures s.Login(Lower(email), password, verify) == s.Login(email, password, verify)
    ensures s.Login(pad + email, password, verify) == s.Login(email, password, verify)
  {
    NormalizeEmailIgnoresCase(email);
    NormalizeEmailIgnoresLeadingBlanks(pad, email);
  }

  /** In a valid store no two users log in with the same id, so the token
      made from it names one account. */
  lemma LoginIdsDistinct(s: Store, e1: string, e2: string, password1: string, password2: string,
                         verify: (string, string) -> bool)
    requires s.Valid()
    requires s.Login(e1, password1, verify).Ok? && s.Login(e2, password2, verify).Ok?
    requires NormalizeEmail(e1) != NormalizeEmail(e2)
    ensures s.Login(e1, password1, verify).value != s.Login(e2, password2, verify).value
  {
  }

  /** When the month has no LIKE wildcard, the query selects exactly the
      days that start with `<month>-`, ASCII letters compared without
      regard to case. */
  lemma MonthCheckinsByPrefix(s: Store, userId: int, month: string)
    requires NoWildcards(month)
    ensures var r := s.MonthCheckins(userId, month);
            var q := month + "-";
            && (forall d :: d in r.trained <==>
                  (userId, d) in s.checkins && |q| <= |d| && Lower(d[..|q|]) == Lower(q))
            && (forall row :: row in r.supp ==> |q| <= |row.day| && Lower(row.day[..|q|]) == Lower(q))
  {
    var q := month + "-";
    assert forall i :: 0 <= i < |q| ==> !IsWildcard(q[i]) by {
      forall i | 0 <= i < |q| ensures !IsWildcard(q[i]) {
        if i < |month| { assert q[i] == month[i]; }
      }
    }
    assert MonthPattern(month) == q + "%";
    forall d {
      LikePrefix(d, q);
    }
  }

  /** A workout is visible to one user only. */
  lemma WorkoutVisibleToOwnerOnly(s: Store, workoutId: int, u1: int, u2: int)
    requires s.GetWorkout(workoutId, u1).Ok? && s.GetWorkout(workoutId, u2).Ok?
    ensures u1 == u2
  {
  }
}
