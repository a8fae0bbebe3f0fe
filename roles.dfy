/**
 * The role gate of the sign-in flow: the allowed-domain check, the role
 * derived from the local part of the account's email, and the profile
 * document written after an accepted sign-in.
 */
module Roles {
  import opened Common
  import opened Text
  import opened Records
  import opened Store

  datatype Role = Student | Teacher | Unknown

  function RoleName(r: Role): string {
    match r
    case Student => "student"
    case Teacher => "teacher"
    case Unknown => "unknown"
  }

  // ---------------------------------------------------------------------------
  // Allowed domain

  const DEFAULT_DOMAIN: string := "your-organization.com"

  /** The configured domain, falling back to the default when unset or empty (`env || default`). */
  function AllowedDomain(env: Option<string>): (d: string)
    ensures d != ""
    ensures env.Some? && env.value != "" ==> d == env.value
    ensures (env.None? || env.value == "") ==> d == DEFAULT_DOMAIN
  {
    if env.Some? && env.value != "" then env.value else DEFAULT_DOMAIN
  }

  /** `user.email?.endsWith('@' + domain)`: a missing email is refused. */
  predicate DomainAccepted(email: Option<string>, domain: string) {
    email.Some? && EndsWith(email.value, "@" + domain)
  }

  /** An accepted email is some text, an `@`, then exactly the domain. */
  lemma DomainAcceptedShape(email: string, domain: string)
    requires DomainAccepted(Some(email), domain)
    ensures exists head :: email == head + "@" + domain
  {
    var head := email[..|email| - |domain| - 1];
    assert email == head + "@" + domain;
  }

  // ---------------------------------------------------------------------------
  // Account patterns

  /** `email.split('@')[0]`. */
  function LocalPart(email: string): string {
    Split(email, '@')[0]
  }

  /** The local part is the text before the first `@`, or the whole string when there is none. */
  lemma LocalPartSpec(email: string)
    ensures LocalPart(email) == email[..IndexOf(email, '@')]
    ensures '@' !in LocalPart(email)
    ensures '@' !in email ==> LocalPart(email) == email
  {
    if '@' !in email {
      IndexOfAbsent(email, '@');
    }
  }

  /** What `/^\d{4}P\d+$/` means: four digits, a `P`, then one or more digits. */
  ghost predicate StudentPattern(a: string) {
    exists year: string, number: string ::
      |year| == 4 && AllDigits(year) && |number| >= 1 && AllDigits(number) && a == year + "P" + number
  }

  /** The matcher for the student pattern, position by position. */
  predicate IsStudentAccount(a: string) {
    |a| >= 6 && AllDigits(a[..4]) && a[4] == 'P' && AllDigits(a[5..])
  }

  lemma StudentMatcherCorrect(a: string)
    ensures IsStudentAccount(a) <==> StudentPattern(a)
  {
    if IsStudentAccount(a) {
      assert a == a[..4] + "P" + a[5..];
    }
    if StudentPattern(a) {
      var year, number :| |year| == 4 && AllDigits(year) && |number| >= 1 && AllDigits(number) && a == year + "P" + number;
      assert a[..4] == year && a[5..] == number;
    }
  }

  /** What `/^[a-z]+(-[a-z]+)*$/` means: one or more non-empty runs of lower-case letters joined by `-`. */
  ghost predicate TeacherPattern(a: string) {
    exists words: seq<string> :: |words| >= 1 && LowerWords(words) && a == Join(words, '-')
  }

  predicate LowerWords(words: seq<string>) {
    forall j :: 0 <= j < |words| ==> words[j] != [] && AllLower(words[j])
  }

  /** The matcher for the teacher pattern: every piece between hyphens is a non-empty lower-case word. */
  predicate IsTeacherAccount(a: string) {
    LowerWords(Split(a, '-'))
  }

  lemma TeacherMatcherCorrect(a: string)
    ensures IsTeacherAccount(a) <==> TeacherPattern(a)
  {
    if IsTeacherAccount(a) {
      JoinSplit(a, '-');
    }
    if TeacherPattern(a) {
      var words :| |words| >= 1 && LowerWords(words) && a == Join(words, '-');
      assert forall j :: 0 <= j < |words| ==> '-' !in words[j];
      SplitJoin(words, '-');
    }
  }

  /** The character-level shape of a teacher account: lower-case letters and hyphens, with no
      hyphen at either end and no two hyphens in a row. */
  predicate HyphenatedLower(a: string) {
    && a != []
    && (forall i :: 0 <= i < |a| ==> IsLower(a[i]) || a[i] == '-')
    && a[0] != '-' && a[|a| - 1] != '-'
    && (forall i :: 0 <= i < |a| - 1 ==> !(a[i] == '-' && a[i + 1] == '-'))
  }

  lemma {:induction false} TeacherAccountShape(a: string)
    ensures IsTeacherAccount(a) <==> HyphenatedLower(a)
    decreases |a|
  {
    var k := IndexOf(a, '-');
    if k == |a| {
      assert Split(a, '-') == [a];
      assert LowerWords([a]) <==> a != [] && AllLower(a) by {
        assert [a][0] == a;
      }
      if HyphenatedLower(a) {
        assert forall i :: 0 <= i < |a| ==> a[i] != '-';
      }
    } else {
      TeacherAccountStep(a, k);
      TeacherAccountShape(a[k + 1..]);
      if HyphenatedLower(a) {
        HyphenatedSplits(a, k);
      }
      if a[..k] != [] && AllLower(a[..k]) && HyphenatedLower(a[k + 1..]) {
        HyphenatedJoins(a, k);
      }
    }
  }

  /** Matching the teacher pattern, one hyphen-separated word at a time. */
  lemma TeacherAccountStep(a: string, k: nat)
    requires k == IndexOf(a, '-') && k < |a|
    ensures IsTeacherAccount(a) <==> a[..k] != [] && AllLower(a[..k]) && IsTeacherAccount(a[k + 1..])
  {
    assert Split(a, '-') == [a[..k]] + Split(a[k + 1..], '-');
    LowerWordsCons(a[..k], Split(a[k + 1..], '-'));
  }

  lemma LowerWordsCons(w: string, ws: seq<string>)
    ensures LowerWords([w] + ws) <==> w != [] && AllLower(w) && LowerWords(ws)
  {
    var all := [w] + ws;
    assert all[0] == w;
    assert forall j :: 0 <= j < |ws| ==> ws[j] == all[j + 1];
  }

  lemma HyphenatedSplits(a: string, k: nat)
    requires k == IndexOf(a, '-') && k < |a| && HyphenatedLower(a)
    ensures a[..k] != [] && AllLower(a[..k]) && HyphenatedLower(a[k + 1..])
  {
    var head, rest := a[..k], a[k + 1..];
    assert k > 0;
    assert AllLower(head) by {
      forall i | 0 <= i < |head| ensures IsLower(head[i]) {
        assert head[i] == a[i];
      }
    }
    assert rest != [];
    assert rest[0] != '-' by { assert a[k] == '-' && rest[0] == a[k + 1]; }
    forall i | 0 <= i < |rest| ensures IsLower(rest[i]) || rest[i] == '-' {
      assert rest[i] == a[k + 1 + i];
    }
    forall i | 0 <= i < |rest| - 1 ensures !(rest[i] == '-' && rest[i + 1] == '-') {
      assert rest[i] == a[k + 1 + i] && rest[i + 1] == a[k + 2 + i];
    }
    assert rest[|rest| - 1] == a[|a| - 1];
  }

  lemma HyphenatedJoins(a: string, k: nat)
    requires k == IndexOf(a, '-') && k < |a|
    requires a[..k] != [] && AllLower(a[..k]) && HyphenatedLower(a[k + 1..])
    ensures HyphenatedLower(a)
  {
    var head, rest := a[..k], a[k + 1..];
    forall i | 0 <= i < |a| ensures IsLower(a[i]) || a[i] == '-' {
      if i < k { assert a[i] == head[i]; }
      else if i > k { assert a[i] == rest[i - k - 1]; }
    }
    assert a[0] == head[0];
    assert a[|a| - 1] == rest[|rest| - 1];
    forall i | 0 <= i < |a| - 1 ensures !(a[i] == '-' && a[i + 1] == '-') {
      if i < k { assert a[i] == head[i]; }
      else if i == k { assert a[i + 1] == rest[0]; }
      else { assert a[i] == rest[i - k - 1] && a[i + 1] == rest[i - k]; }
    }
  }

  // ---------------------------------------------------------------------------
  // Role

  /** Student is tested first, then teacher; anything else is unknown. */
  function ClassifyAccount(account: string): Role {
    if IsStudentAccount(account) then Student
    else if IsTeacherAccount(account) then Teacher
    else Unknown
  }

  /** `getUserRole`. */
  function GetUserRole(email: string): Role {
    ClassifyAccount(LocalPart(email))
  }

  /** The role is the first pattern the local part matches, and unknown when it matches neither. */
  lemma GetUserRoleSpec(email: string)
    ensures var a := LocalPart(email);
      && (GetUserRole(email) == Student <==> StudentPattern(a))
      && (GetUserRole(email) == Teacher <==> !StudentPattern(a) && TeacherPattern(a))
      && (GetUserRole(email) == Unknown <==> !StudentPattern(a) && !TeacherPattern(a))
  {
    StudentMatcherCorrect(LocalPart(email));
    TeacherMatcherCorrect(LocalPart(email));
  }

  /** The two patterns never both match, so the order of the tests does not matter. */
  lemma PatternsDisjoint(a: string)
    ensures !(StudentPattern(a) && TeacherPattern(a))
  {
    StudentMatcherCorrect(a);
    TeacherMatcherCorrect(a);
    TeacherAccountShape(a);
  }

  /** Only the text before the first `@` matters: the domain part never changes the role. */
  lemma RoleIgnoresDomain(account: string, domain: string)
    requires '@' !in account
    ensures GetUserRole(account + "@" + domain) == ClassifyAccount(account)
  {
    var email := account + "@" + domain;
    IndexOfAt(account, '@', domain);
    LocalPartSpec(email);
    assert email[..|account|] == account;
  }

  /** A year, `P` and a number: a student, whatever the domain. */
  lemma StudentExample(domain: string)
    ensures GetUserRole("2024P001@" + domain) == Student
  {
    RoleIgnoresDomain("2024P001", domain);
    assert "2024P001@" + domain == "2024P001" + "@" + domain;
    assert "2024P001"[..4] == "2024" && "2024P001"[5..] == "001";
  }

  /** Hyphenated lower-case words: a teacher (with `RoleIgnoresDomain`, whatever the domain). */
  lemma TeacherExample()
    ensures ClassifyAccount("yamada-taro") == Teacher
  {
    var words := ["yamada", "taro"];
    assert Join(words, '-') == "yamada-taro";
    SplitJoin(words, '-');
    assert !IsDigit("yamada-taro"[0]);
  }

  /** Letters mixed with digits match neither pattern, whatever the domain. */
  lemma UnknownExample(domain: string)
    ensures GetUserRole("x1y2@" + domain) == Unknown
  {
    RoleIgnoresDomain("x1y2", domain);
    assert "x1y2@" + domain == "x1y2" + "@" + domain;
    TeacherAccountShape("x1y2");
    assert !IsLower("x1y2"[1]);
  }

  // ---------------------------------------------------------------------------
  // Profile document

  /**
   * The profile after `setDoc(..., { email, role, displayName }, { merge: true })`:
   * the three fields are overwritten and every other field of the existing
   * document (or of none) is kept.
   */
  function MergeProfile(prev: Option<Profile>, email: string, role: Role, displayName: Option<string>): (p: Profile)
    ensures p.Keys == prev.GetOr(map[]).Keys + {"email", "role", "displayName"}
    ensures p["email"] == Str(email) && p["role"] == Str(RoleName(role))
    ensures p["displayName"] == if displayName.Some? then Str(displayName.value) else Null
    ensures forall k :: k in prev.GetOr(map[]) && k != "email" && k != "role" && k != "displayName" ==>
              p[k] == prev.GetOr(map[])[k]
  {
    var dn := if displayName.Some? then Str(displayName.value) else Null;
    prev.GetOr(map[])["email" := Str(email)]["role" := Str(RoleName(role))]["displayName" := dn]
  }

  // ---------------------------------------------------------------------------
  // Sign-in

  const DOMAIN_ERROR_SUFFIX := " のメールアドレスでログインしてください。"
  const INVALID_API_KEY := "auth/invalid-api-key"
  const CONFIG_ERROR := "認証の設定が正しくありません。管理者に連絡してください。"

  /** An error as the sign-in flow sees it: the provider's or the store's code, if any, and the message. */
  datatype AuthError = AuthError(code: Option<string>, message: string)

  /** The error raised for an account outside the allowed domain. */
  function DomainError(domain: string): AuthError {
    AuthError(None, domain + DOMAIN_ERROR_SUFFIX)
  }

  /** The catch clause: an invalid API key is reported as a configuration problem; every other
      error is raised again unchanged. */
  function Rethrown(e: AuthError): (r: AuthError)
    ensures e.code == Some(INVALID_API_KEY) ==> r == AuthError(None, CONFIG_ERROR)
    ensures e.code != Some(INVALID_API_KEY) ==> r == e
  {
    if e.code == Some(INVALID_API_KEY) then AuthError(None, CONFIG_ERROR) else e
  }

  /** The authentication context: the signed-in account as the provider's listener reports it. */
  class AuthProvider {
    var user: Option<AuthUser>
    var loading: bool
    const domain: string
    const db: Database

    constructor (db: Database, env: Option<string>)
      ensures user == None && loading && domain == AllowedDomain(env) && this.db == db
    {
      user := None;
      loading := true;
      domain := AllowedDomain(env);
      this.db := db;
    }

    /** The `onAuthStateChanged` listener. */
    method OnAuthStateChanged(u: Option<AuthUser>)
      modifies this`user, this`loading
      ensures user == u && !loading
    {
      user := u;
      loading := false;
    }

    /** `logout`: the provider signs out and the listener reports nobody. */
    method Logout()
      modifies this`user, this`loading
      ensures user == None && !loading
    {
      OnAuthStateChanged(None);
    }

    /** `signInWithGoogle`. `popup` is the provider's answer to the sign-in popup and `write` the
        store's answer to the profile write; the provider's sign-in and sign-out reach this state
        through the listener. */
    method SignInWithGoogle(popup: Result<AuthUser, AuthError>, write: Outcome<AuthError>) returns (r: Outcome<AuthError>)
      modifies this`user, this`loading, db`users
      ensures popup.Err? ==>
        r == Fail(Rethrown(popup.error)) && user == old(user) && loading == old(loading) && db.users == old(db.users)
      ensures popup.Ok? && !DomainAccepted(popup.value.email, domain) ==>
        r == Fail(DomainError(domain)) && user == None && !loading && db.users == old(db.users)
      ensures popup.Ok? && DomainAccepted(popup.value.email, domain) ==>
        var u := popup.value;
        && user == Some(u) && !loading
        && (write.Pass? ==> r == Pass && db.users == old(db.users)[u.uid :=
              MergeProfile(Get(old(db.users), u.uid), u.email.value, GetUserRole(u.email.value), u.displayName)])
        && (write.Fail? ==> r == Fail(Rethrown(write.error)) && db.users == old(db.users))
    {
      if popup.Err? {
        return Fail(Rethrown(popup.error));
      }
      var u := popup.value;
      OnAuthStateChanged(Some(u));
      if !DomainAccepted(u.email, domain) {
        OnAuthStateChanged(None);
        return Fail(Rethrown(DomainError(domain)));
      }
      var role := GetUserRole(u.email.value);
      if write.Fail? {
        return Fail(Rethrown(write.error));
      }
      db.SetProfile(u.uid, MergeProfile(Get(db.users, u.uid), u.email.value, role, u.displayName));
      return Pass;
    }
  }
}
