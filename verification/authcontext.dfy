/** The mock session of contexts/AuthContext.tsx: the signed-in user, the
    `isAuthenticated` flag and the `user` entry of browser storage, changed
    by loading on mount, `login`, `register` and `logout`. */
module AuthContext {
  import opened Base
  import opened Js
  import opened Strings

  /** The `User` record. */
  datatype User = User(id: string, fullName: string, email: string, avatar: Option<string>)

  /** The user as the JSON object that is stored and read back. */
  function UserValue(u: User): (v: JsValue)
    ensures v.JsObject? && Truthy(v)
    ensures "email" in v.fields && v.fields["email"] == JsString(u.email)
    ensures "fullName" in v.fields && v.fields["fullName"] == JsString(u.fullName)
  {
    var base := map["id" := JsString(u.id), "fullName" := JsString(u.fullName), "email" := JsString(u.email)];
    JsObject(if u.avatar.Some? then base["avatar" := JsString(u.avatar.value)] else base)
  }

  /** `JSON.stringify` and `JSON.parse` are parameters; `parse` yields `None`
      where it throws. */
  type Stringify = JsValue -> string
  type Parse = string -> Option<JsValue>

  /** The provider's state: the `user` state (any parsed JSON value can end
      up there on mount, `null` when signed out), the flag, and the stored
      `user` entry (`None` when absent). */
  datatype Session = Session(user: JsValue, isAuthenticated: bool, stored: Option<string>)

  /** A user is present: neither `null` nor `undefined`. */
  predicate HasUser(s: Session) {
    !s.user.JsNull? && !s.user.JsUndefined?
  }

  /** The flag says exactly whether a user is present. */
  predicate Consistent(s: Session) {
    s.isAuthenticated <==> HasUser(s)
  }

  /** The state before the mount effect runs: nobody signed in, storage as
      left by an earlier visit. */
  function Initial(stored: Option<string>): (s: Session)
    ensures Consistent(s) && !s.isAuthenticated && s.stored == stored
  {
    Session(JsNull, false, stored)
  }

  // ---------------------------------------------------------------------
  // Avatar initials

  /** `toUpperCase` on the letters a name is expected to start with: ASCII
      and the basic Cyrillic block; every other character is unchanged. */
  function UpperChar(c: char): (u: char)
    ensures IsAsciiUpper(c) ==> u == c
    ensures 'a' <= c <= 'z' ==> IsAsciiUpper(u)
  {
    if 'a' <= c <= 'z' then (c as int - 32) as char
    else if '\U{0430}' <= c <= '\U{044F}' then (c as int - 32) as char
    else if '\U{0450}' <= c <= '\U{045F}' then (c as int - 80) as char
    else c
  }

  function Upper(s: string): (u: string)
    ensures |u| == |s|
    ensures forall i :: 0 <= i < |s| ==> u[i] == UpperChar(s[i])
  {
    if |s| == 0 then "" else [UpperChar(s[0])] + Upper(s[1..])
  }

  /** `map(n => n[0]).join('')`: the first character of every part; an empty
      part gives `undefined`, which `join` renders as nothing. */
  function Initials(parts: seq<string>): (r: string)
    ensures |r| <= |parts|
    ensures forall k :: 0 <= k < |r| ==> StartsSomePart(r[k], parts)
  {
    if |parts| == 0 then ""
    else
      var head := if |parts[0]| > 0 then [parts[0][0]] else "";
      var rest := Initials(parts[1..]);
      forall k | 0 <= k < |head + rest| ensures StartsSomePart((head + rest)[k], parts) {
        if k < |head| {
          assert (head + rest)[k] == parts[0][0];
        } else {
          assert (head + rest)[k] == rest[k - |head|];
          var j :| 0 <= j < |parts[1..]| && |parts[1..][j]| > 0 && rest[k - |head|] == parts[1..][j][0];
          assert parts[1..][j] == parts[j + 1];
        }
      }
      head + rest
  }

  /** `c` is the first character of one of the non-empty parts. */
  predicate StartsSomePart(c: char, parts: seq<string>) {
    exists j :: 0 <= j < |parts| && |parts[j]| > 0 && c == parts[j][0]
  }

  /** The first characters of the non-empty parts, in order, is exactly
      what `Initials` lists. */
  lemma {:induction false} InitialsOfNonEmpty(parts: seq<string>)
    requires forall i :: 0 <= i < |parts| ==> |parts[i]| > 0
    ensures |Initials(parts)| == |parts|
    ensures forall i :: 0 <= i < |parts| ==> Initials(parts)[i] == parts[i][0]
    decreases |parts|
  {
    if |parts| > 0 {
      InitialsOfNonEmpty(parts[1..]);
      var r := Initials(parts);
      assert r == [parts[0][0]] + Initials(parts[1..]);
      forall i | 1 <= i < |parts| ensures r[i] == parts[i][0] {
        assert parts[1..][i - 1] == parts[i];
      }
    }
  }

  /** `generateAvatar(name)`: the upper-cased initials of the space-separated
      words, cut to two characters. */
  function Avatar(name: string): (a: string)
    ensures |a| <= 2
    ensures |a| <= |Split(name, ' ')|
    ensures forall i :: 0 <= i < |a| ==> exists c :: StartsSomePart(c, Split(name, ' ')) && a[i] == UpperChar(c)
  {
    var firsts := Initials(Split(name, ' '));
    var initials := Upper(firsts);
    var a := initials[..Min(2, |initials|)];
    assert forall i :: 0 <= i < |a| ==> a[i] == UpperChar(firsts[i]) && StartsSomePart(firsts[i], Split(name, ' '));
    a
  }

  /** A name of two space-separated words gets the upper-cased first letter
      of each. */
  lemma AvatarOfTwoWords(first: string, last: string)
    requires |first| > 0 && |last| > 0
    requires ' ' !in first && ' ' !in last
    ensures Avatar(first + " " + last) == [UpperChar(first[0]), UpperChar(last[0])]
  {
    var parts := [first, last];
    assert Join(parts, ' ') == first + " " + last by {
      assert Join(parts[1..], ' ') == last;
    }
    SplitJoin(parts, ' ');
    InitialsOfNonEmpty(parts);
  }

  /** The demo login's name gives "UN". */
  lemma UserNameAvatar()
    ensures Avatar(DemoName) == "UN"
  {
    var first, last := "User", "Name";
    assert DemoName == first + " " + last;
    AvatarOfTwoWords(first, last);
    assert UpperChar(first[0]) == 'U' && UpperChar(last[0]) == 'N';
  }

  // ---------------------------------------------------------------------
  // Operations

  /** The name every `login` signs in under. */
  const DemoName: string := "User Name"

  /** `localStorage.setItem('user', JSON.stringify(userData))` after the
      user is put into state. */
  function SignIn(u: User, stringify: Stringify): (s: Session)
    ensures Consistent(s) && s.isAuthenticated
    ensures s.user == UserValue(u) && s.stored == Some(stringify(s.user))
  {
    Session(UserValue(u), true, Some(stringify(UserValue(u))))
  }

  /** `login(email, password)`: any non-empty pair signs in the demo user
      under that email; otherwise false and no change. The random id is a
      parameter. */
  function Login(s: Session, email: string, password: string, id: string, stringify: Stringify): (r: (bool, Session))
    ensures r.0 <==> email != "" && password != ""
    ensures !r.0 ==> r.1 == s
    ensures r.0 ==> r.1 == SignIn(User(id, DemoName, email, Some(Avatar(DemoName))), stringify)
    ensures r.0 ==> Consistent(r.1) && Get(r.1.user, "email") == Some(JsString(email))
  {
    if email != "" && password != "" then
      (true, SignIn(User(id, DemoName, email, Some(Avatar(DemoName))), stringify))
    else (false, s)
  }

  /** `register(fullName, email, password)`: all three non-empty signs in a
      user with those details and the avatar of the full name; otherwise
      false and no change. */
  function Register(s: Session, fullName: string, email: string, password: string, id: string,
                    stringify: Stringify): (r: (bool, Session))
    ensures r.0 <==> fullName != "" && email != "" && password != ""
    ensures !r.0 ==> r.1 == s
    ensures r.0 ==> r.1 == SignIn(User(id, fullName, email, Some(Avatar(fullName))), stringify)
    ensures r.0 ==> Consistent(r.1) && Get(r.1.user, "fullName") == Some(JsString(fullName))
  {
    if fullName != "" && email != "" && password != "" then
      (true, SignIn(User(id, fullName, email, Some(Avatar(fullName))), stringify))
    else (false, s)
  }

  /** `logout()`: nobody signed in and the stored entry removed. */
  function Logout(s: Session): (r: Session)
    ensures r.user == JsNull && !r.isAuthenticated && r.stored.None?
    ensures Consistent(r)
  {
    Session(JsNull, false, None)
  }

  /** The mount effect as written: a non-empty stored entry is parsed; a
      parse error removes it and leaves the state signed out; otherwise the
      parsed value becomes the user and the flag is set unconditionally. */
  function MountLoadAsWritten(stored: Option<string>, parse: Parse): (s: Session)
    ensures (stored.None? || stored == Some("")) ==> s == Initial(stored)
    ensures stored.Some? && stored.value != "" && parse(stored.value).None? ==> s == Initial(None)
    ensures stored.Some? && stored.value != "" && parse(stored.value).Some? ==>
      s == Session(parse(stored.value).value, true, stored)
  {
    match stored
    case None => Initial(stored)
    case Some(text) =>
      if text == "" then Initial(stored)
      else
        match parse(text)
        case None => Initial(None)
        case Some(v) => Session(v, true, stored)
  }

  /** A stored `"null"`, which `JSON.parse` reads as `null`, leaves the
      as-written effect claiming a signed-in session with no user. */
  lemma SavedNullBreaksConsistency(parse: Parse)
    requires parse("null") == Some(JsNull)
    ensures var s := MountLoadAsWritten(Some("null"), parse);
      s.isAuthenticated && s.user == JsNull && !Consistent(s)
  {
  }

  /** The mount effect with the flag derived from the parsed value, so that
      a stored `null` leaves the session signed out. */
  function MountLoad(stored: Option<string>, parse: Parse): (s: Session)
    ensures Consistent(s)
    ensures (stored.None? || stored == Some("")) ==> s == Initial(stored)
    ensures stored.Some? && stored.value != "" && parse(stored.value).None? ==> s == Initial(None)
    ensures stored.Some? && stored.value != "" && parse(stored.value).Some? ==>
      s.user == parse(stored.value).value && s.stored == stored
  {
    match stored
    case None => Initial(stored)
    case Some(text) =>
      if text == "" then Initial(stored)
      else
        match parse(text)
        case None => Initial(None)
        case Some(v) => Session(v, !v.JsNull? && !v.JsUndefined?, stored)
  }

  /** The corrected effect differs from the one as written only where the
      parsed value is not a user. */
  lemma MountLoadAgrees(stored: Option<string>, parse: Parse)
    requires HasUser(MountLoadAsWritten(stored, parse)) || !MountLoadAsWritten(stored, parse).isAuthenticated
    ensures MountLoad(stored, parse) == MountLoadAsWritten(stored, parse)
  {
  }

  /** Every operation keeps the flag in step with the user. */
  lemma OperationsKeepConsistency(s: Session, stored: Option<string>, parse: Parse, stringify: Stringify,
                                  fullName: string, email: string, password: string, id: string)
    requires Consistent(s)
    ensures Consistent(MountLoad(stored, parse))
    ensures Consistent(Login(s, email, password, id, stringify).1)
    ensures Consistent(Register(s, fullName, email, password, id, stringify).1)
    ensures Consistent(Logout(s))
  {
  }

  /** What `login` or `register` store is what a later mount restores: with
      a `JSON.parse` that reads back what `JSON.stringify` wrote for a user,
      the next visit starts signed in as the same user. */
  lemma SignInSurvivesReload(u: User, stringify: Stringify, parse: Parse)
    requires stringify(UserValue(u)) != ""
    requires parse(stringify(UserValue(u))) == Some(UserValue(u))
    ensures var s := SignIn(u, stringify);
      MountLoad(s.stored, parse) == s
  {
  }

  /** After `logout` a reload stays signed out. */
  lemma LogoutSurvivesReload(s: Session, parse: Parse)
    ensures MountLoad(Logout(s).stored, parse) == Initial(None)
  {
  }
}
