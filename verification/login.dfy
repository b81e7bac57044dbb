/** The sign-in / registration form: `handleAuth` decides, from the form's
    fields and the known users, whether to log in the built-in administrator,
    log in a known user, refuse, or mint a new member. */
module Login {
  import opened Options
  import opened JsText
  import opened Types

  /** The form's two tabs, 'login' and 'signup'. */
  datatype Mode = SignIn | SignUp

  /** The form's fields at the moment it is submitted. */
  datatype AuthForm = AuthForm(mode: Mode, isAdmin: bool, userId: string, fullName: string)

  /** What a submission leads to. The first three hand `user` to `onLogin`;
      the last two raise an alert and log nobody in. */
  datatype AuthOutcome =
    | AdminBypass(user: User)
    | Found(user: User)
    | Registered(user: User)
    | UnknownId
    | NameTooShort

  /** Fewest UTF-16 code units a trimmed full name may have. */
  const MinNameLength: nat := 3

  /** The typed id is one of the two administrator ids, ignoring case but
      not surrounding whitespace. */
  predicate IsAdminId(userId: string) {
    Lower(userId) == "admin77" || Lower(userId) == "admin"
  }

  /** The administrator bypass applies: login tab, admin box ticked, an
      administrator id typed. */
  predicate BypassApplies(form: AuthForm) {
    form.mode == SignIn && form.isAdmin && IsAdminId(form.userId)
  }

  /** The synthetic administrator the bypass logs in (id "admin", role
      ADMIN, nothing earned); `now` is the ISO timestamp of the moment of
      login. */
  function SuperAdmin(now: string): User {
    User("admin", "Super Admin", Admin, "https://api.dicebear.com/7.x/bottts/svg?seed=Admin", 0, 0, now)
  }

  /** The lookup key: the typed id lower-cased and then trimmed. */
  function LookupKey(userId: string): string {
    Trim(Lower(userId))
  }

  /** A stored user answers to `key` by id or by name, ignoring the case of
      the stored values but not their surrounding whitespace. */
  predicate Matches(u: User, key: string) {
    Lower(u.id) == key || Lower(u.name) == key
  }

  /** Position `i` holds the first user answering to `key`. */
  predicate IsFirstMatch(users: seq<User>, key: string, i: nat) {
    && i < |users|
    && Matches(users[i], key)
    && forall j :: 0 <= j < i ==> !Matches(users[j], key)
  }

  /** `existingUsers.find(...)`, returning the position found. */
  function FindUser(users: seq<User>, key: string): (r: Option<nat>)
    ensures r.Some? ==> IsFirstMatch(users, key, r.value)
    ensures r.None? <==> forall j :: 0 <= j < |users| ==> !Matches(users[j], key)
  {
    if |users| == 0 then None
    else if Matches(users[0], key) then Some(0)
    else
      match FindUser(users[1..], key)
      case Some(k) =>
        assert forall j :: 1 <= j <= k ==> users[j] == users[1..][j - 1];
        Some(k + 1)
      case None =>
        assert forall j :: 1 <= j < |users| ==> users[j] == users[1..][j - 1];
        None
  }

  /** A member id: `S-` followed by four decimal digits denoting a number
      from 1000 to 9999. */
  predicate IsMemberId(id: string) {
    && |id| == 6
    && id[..2] == "S-"
    && AllDigitsIn(id[2..], 10)
    && 1000 <= ValueIn(id[2..], 10) <= 9999
  }

  /** The avatar service URL a new member's name is appended to, unencoded. */
  const AvatarBase: string := "https://api.dicebear.com/7.x/avataaars/svg?seed="

  /** The member registration creates; `serial` is the random draw
      `Math.floor(1000 + Math.random() * 9000)` and `now` the ISO timestamp. */
  function NewMember(fullName: string, serial: int, now: string): (u: User)
    requires 1000 <= serial <= 9999
    ensures IsMemberId(u.id) && ValueIn(u.id[2..], 10) == serial
    ensures u.name == fullName && u.role == Member
    ensures u.balance == 0 && u.totalEarned == 0
    ensures u.joinedDate == now && u.avatar == AvatarBase + fullName
  {
    assert Pow10(3) == 1000 && Pow10(4) == 10000;
    DecimalWidth(serial, 3);
    DecimalRoundTrip(serial);
    var id := "S-" + Decimal(serial);
    assert id[2..] == Decimal(serial);
    User(id, fullName, Member, AvatarBase + fullName, 0, 0, now)
  }

  /** `handleAuth`. */
  function HandleAuth(form: AuthForm, users: seq<User>, serial: int, now: string): (r: AuthOutcome)
    requires 1000 <= serial <= 9999
    // The bypass fires exactly when its three conditions hold, whatever the
    // known users are, and always yields the same administrator.
    ensures r.AdminBypass? <==> BypassApplies(form)
    ensures r.AdminBypass? ==> r.user == SuperAdmin(now)
    // Otherwise the login tab logs in the first user answering to the key,
    // unchanged, or nobody when none does.
    ensures r.Found? ==> exists i: nat :: IsFirstMatch(users, LookupKey(form.userId), i) && r.user == users[i]
    ensures r.Found? <==>
      form.mode == SignIn && !BypassApplies(form) && exists i: nat :: IsFirstMatch(users, LookupKey(form.userId), i)
    ensures r.UnknownId? <==>
      form.mode == SignIn && !BypassApplies(form)
      && forall j :: 0 <= j < |users| ==> !Matches(users[j], LookupKey(form.userId))
    // The registration tab refuses a trimmed name shorter than three code
    // units and otherwise creates a fresh member under the untrimmed name.
    ensures r.NameTooShort? <==> form.mode == SignUp && Utf16Length(Trim(form.fullName)) < MinNameLength
    ensures r.Registered? <==> form.mode == SignUp && Utf16Length(Trim(form.fullName)) >= MinNameLength
    ensures r.Registered? ==> r.user == NewMember(form.fullName, serial, now)
  {
    if form.mode == SignIn then
      if BypassApplies(form) then AdminBypass(SuperAdmin(now))
      else
        match FindUser(users, LookupKey(form.userId))
        case Some(i) => Found(users[i])
        case None => UnknownId
    else if Utf16Length(Trim(form.fullName)) < MinNameLength then NameTooShort
    else Registered(NewMember(form.fullName, serial, now))
  }

  /** The user handed to `onLogin`, if any. */
  function LoginTarget(r: AuthOutcome): (u: Option<User>)
    ensures u.None? <==> r.UnknownId? || r.NameTooShort?
    ensures u.Some? ==> u.value == r.user
  {
    match r
    case AdminBypass(user) => Some(user)
    case Found(user) => Some(user)
    case Registered(user) => Some(user)
    case _ => None
  }

  /** With the admin box unticked, typing `admin` is an ordinary lookup: it
      logs in whoever answers to "admin", or nobody. */
  lemma UntickedAdminIsLookup(users: seq<User>, serial: int, now: string)
    requires 1000 <= serial <= 9999
    ensures var r := HandleAuth(AuthForm(SignIn, false, "admin", ""), users, serial, now);
            && !r.AdminBypass?
            && (r.Found? <==> exists j :: 0 <= j < |users| && Matches(users[j], "admin"))
  {
    LowerOfLowercase("admin");
    TrimUnpadded("admin");
    assert LookupKey("admin") == "admin";
  }

  /** The bypass test does not trim: " admin" with the box ticked is not an
      administrator id, while the lookup key made from it is "admin". */
  lemma BypassIsNotTrimmed()
    ensures !IsAdminId(" admin")
    ensures LookupKey(" admin") == "admin"
  {
    LowerOfLowercase(" admin");
    PaddedAdminKey(" admin");
  }

  lemma PaddedAdminKey(s: string)
    requires |s| == 6 && s[0] == ' ' && s[1..] == "admin"
    ensures Trim(s) == "admin"
  {
    TrimLeadingSpace(s, "admin");
  }

  /** So " admin" with the box ticked and no known users is refused. */
  lemma PaddedAdminRefused(now: string)
    ensures HandleAuth(AuthForm(SignIn, true, " admin", ""), [], 1000, now) == UnknownId
  {
    BypassIsNotTrimmed();
  }

  /** The bypass takes precedence over the lookup: it fires even when a
      stored user answers to the typed id. */
  lemma BypassBeforeLookup(form: AuthForm, users: seq<User>, j: nat, serial: int, now: string)
    requires 1000 <= serial <= 9999
    requires BypassApplies(form)
    requires j < |users| && Matches(users[j], LookupKey(form.userId))
    ensures FindUser(users, LookupKey(form.userId)).Some?
    ensures HandleAuth(form, users, serial, now) == AdminBypass(SuperAdmin(now))
  {
  }

  /** The name-length rule applies to the trimmed name: padding does not
      make "ab" long enough. */
  lemma PaddedShortNameRefused(serial: int, now: string)
    requires 1000 <= serial <= 9999
    ensures HandleAuth(AuthForm(SignUp, false, "", " ab "), [], serial, now) == NameTooShort
  {
    assert " ab "[..1] == " " && " ab "[1..1 + 2] == "ab" && " ab "[3..] == " ";
    TrimUnique(" ab ", 1, "ab");
    assert Utf16Length("ab") == 2;
  }

  /** The name-length rule counts UTF-16 code units: a name of one
      character outside the Basic Multilingual Plane (an emoji, say) followed
      by one non-space character inside it is long enough. */
  lemma AstralNameAccepted(form: AuthForm, users: seq<User>, serial: int, now: string)
    requires 1000 <= serial <= 9999
    requires form.mode == SignUp
    requires |form.fullName| == 2 && form.fullName[0] as int >= 0x1_0000
    requires form.fullName[1] as int < 0x1_0000 && !IsJsSpace(form.fullName[1])
    ensures HandleAuth(form, users, serial, now).Registered?
  {
    AstralNameLength(form.fullName);
  }

  lemma AstralNameLength(name: string)
    requires |name| == 2 && name[0] as int >= 0x1_0000
    requires name[1] as int < 0x1_0000 && !IsJsSpace(name[1])
    ensures Utf16Length(Trim(name)) == 3
  {
    TrimUnpadded(name);
    assert name[1..] == [name[1]];
  }

  /** The lookup ignores the case of the typed id: ids equal up to case
      lead to the same outcome. */
  lemma LookupIgnoresCase(form: AuthForm, other: string, users: seq<User>, serial: int, now: string)
    requires 1000 <= serial <= 9999
    requires Lower(other) == Lower(form.userId)
    ensures HandleAuth(form.(userId := other), users, serial, now) == HandleAuth(form, users, serial, now)
  {
  }
}
