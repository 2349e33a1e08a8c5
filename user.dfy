/**
 * The User model of server/models/user.js: the schema's field constraints,
 * the `toJSON` projection, `generateAuthToken`, `findByToken` and the
 * pre-save hook that hashes a modified password.
 *
 * Token signing and verification (jsonwebtoken) and password hashing
 * (bcryptjs) are not modelled; they enter as the functions of a `Crypto`
 * value, and what the model needs of them is stated as predicates that the
 * lemmas require.
 */
module Users {
  import opened Wrappers
  import opened Json
  import Strings

  /**
   * The payload of a token `generateAuthToken` signs: `{_id, access}` plus the
   * `iat` claim (issue time, whole seconds) jsonwebtoken adds.
   */
  datatype Claims = Claims(id: Id, access: string, iat: int)

  /** The library calls user.js makes. */
  datatype Crypto = Crypto(
    sign: (Claims, string) -> string,             // jwt.sign(claims, secret).toString()
    verify: (string, string) -> Option<Claims>,   // jwt.verify(token, secret); None where it throws
    hash: (string, string) -> string)             // bcrypt.hash(password, salt)

  /** Verifying a token signed with the same secret gives back the signed claims. */
  ghost predicate RoundTrips(c: Crypto) {
    forall claims, secret :: c.verify(c.sign(claims, secret), secret) == Some(claims)
  }

  /** A signed token is never the empty string. */
  ghost predicate SignsNonEmpty(c: Crypto) {
    forall claims, secret :: c.sign(claims, secret) != []
  }

  /** One element of the `tokens` array. */
  datatype TokenEntry = TokenEntry(access: string, token: string)

  /** A user document as the store holds it; an absent path is `None`. */
  datatype UserRecord = UserRecord(
    id: Id,
    name: Option<string>,
    email: Option<string>,
    password: Option<string>,
    tokens: seq<TokenEntry>)

  /** The store's records sit under their own ids. */
  predicate Keyed(users: map<Id, UserRecord>) {
    forall k :: k in users ==> users[k].id == k
  }

  // ---------------------------------------------------------------- schema

  /** The schema's validators on one record (the `unique` index is `EmailFree`). */
  predicate FieldsValid(u: UserRecord, isEmail: string -> bool) {
    && u.name.Some? && u.name.value != []
    && u.email.Some? && u.email.value != [] && isEmail(u.email.value)
    // the path says `require`, not `required`: an absent password passes;
    // `minlength` compares JavaScript's length, in UTF-16 code units
    && (u.password.Some? ==> Strings.Utf16Length(u.password.value) >= 6)
    && forall i :: 0 <= i < |u.tokens| ==> u.tokens[i].access != [] && u.tokens[i].token != []
  }

  /** No other stored user has this email (`unique: true`). */
  predicate EmailFree(users: map<Id, UserRecord>, u: UserRecord) {
    forall k :: k in users && k != u.id ==> users[k].email != u.email
  }

  /** Whether a save of `u` into `users` goes through. */
  predicate Accepts(users: map<Id, UserRecord>, u: UserRecord, isEmail: string -> bool) {
    FieldsValid(u, isEmail) && EmailFree(users, u)
  }

  /** The `trim: true` setter of `name` and `email`. */
  function TrimPath(v: Option<string>): (r: Option<string>)
    ensures r.Some? <==> v.Some?
    ensures r.Some? ==> r.value == Strings.Trim(v.value) && Strings.Trimmed(r.value) && |r.value| <= |v.value|
  {
    if v.Some? then Some(Strings.Trim(v.value)) else None
  }

  /** The password is optional: a user without one passes validation. */
  lemma PasswordNotRequired(id: Id, name: string, email: string, isEmail: string -> bool)
    requires name != [] && email != [] && isEmail(email)
    ensures FieldsValid(UserRecord(id, Some(name), Some(email), None, []), isEmail)
  {
  }

  /** A password shorter than six UTF-16 code units, or an empty name, is refused. */
  lemma ShortPasswordOrEmptyNameRejected(u: UserRecord, isEmail: string -> bool)
    requires (u.password.Some? && Strings.Utf16Length(u.password.value) < 6) || u.name == Some("")
    ensures !FieldsValid(u, isEmail)
  {
  }

  /** Three characters outside the Basic Multilingual Plane are six code units: long enough. */
  lemma AstralPasswordLongEnough(id: Id, name: string, email: string, isEmail: string -> bool)
    requires name != [] && email != [] && isEmail(email)
    ensures var p := "\U{1F600}\U{1F600}\U{1F600}";
            |p| == 3 && FieldsValid(UserRecord(id, Some(name), Some(email), Some(p), []), isEmail)
  {
    var p := "\U{1F600}\U{1F600}\U{1F600}";
    assert p[1..] == "\U{1F600}\U{1F600}" && p[2..] == "\U{1F600}";
    assert Strings.Utf16Length(p) == 6;
  }

  // ---------------------------------------------------------------- toJSON

  function TokenObject(e: TokenEntry): Value {
    Obj(map["access" := Str(e.access), "token" := Str(e.token)])
  }

  /** Sets `key` to the string `v` when the path has a value. */
  function SetPath(o: Object, key: string, v: Option<string>): (r: Object)
    ensures key in r <==> key in o || v.Some?
    ensures v.Some? ==> r[key] == Str(v.value)
    ensures forall k :: k != key ==> (k in r <==> k in o) && (k in o ==> r[k] == o[k])
  {
    if v.Some? then o[key := Str(v.value)] else o
  }

  /** `user.toObject()`: every path the document has set. */
  function ToObject(u: UserRecord): (r: Object)
    ensures "_id" in r && r["_id"] == Str(u.id) && "tokens" in r
    ensures ("name" in r <==> u.name.Some?) && ("password" in r <==> u.password.Some?)
    ensures ("email" in r <==> u.email.Some?) && (u.email.Some? ==> r["email"] == Str(u.email.value))
  {
    var base := map["_id" := Str(u.id),
                     "tokens" := Arr(seq(|u.tokens|, i requires 0 <= i < |u.tokens| => TokenObject(u.tokens[i])))];
    SetPath(SetPath(SetPath(base, "name", u.name), "password", u.password), "email", u.email)
  }

  /** `toJSON`: what leaves the server is the id and the email, never name, password or tokens. */
  function ToJSON(u: UserRecord): (r: Object)
    ensures forall k :: k in r <==> k == "_id" || (k == "email" && u.email.Some?)
    ensures r["_id"] == Str(u.id)
    ensures u.email.Some? ==> r["email"] == Str(u.email.value)
    ensures "name" !in r && "password" !in r && "tokens" !in r
  {
    Pick(ToObject(u), {"_id", "email"})
  }

  // ---------------------------------------------------------------- pre-save

  /** The pre-save hook's rule: hash the password only when it was modified. */
  function HashIfModified(password: Option<string>, modified: bool,
                          hash: (string, string) -> string, salt: string): (r: Option<string>)
    ensures !modified ==> r == password
    ensures modified && password.Some? ==> r == Some(hash(password.value, salt))
    ensures r.None? <==> password.None?
  {
    if modified && password.Some? then Some(hash(password.value, salt)) else password
  }

  // ---------------------------------------------------------------- findByToken

  predicate HoldsToken(u: UserRecord, token: string) {
    exists i :: 0 <= i < |u.tokens| && u.tokens[i].token == token
  }

  predicate HoldsAccess(u: UserRecord, access: string) {
    exists i :: 0 <= i < |u.tokens| && u.tokens[i].access == access
  }

  /**
   * The query `{_id, 'tokens.token': token, 'tokens.access': 'auth'}` on one
   * document: each array condition may be met by a different element.
   */
  predicate MatchesQuery(u: UserRecord, id: Id, token: string) {
    u.id == id && HoldsToken(u, token) && HoldsAccess(u, "auth")
  }

  /** `User.findOne(query)`: the matching user, if any. */
  function FindOne(users: map<Id, UserRecord>, id: Id, token: string): (r: Option<UserRecord>)
    ensures r.Some? ==> id in users && r.value == users[id] && MatchesQuery(r.value, id, token)
    ensures r.None? && Keyed(users) ==> forall k :: k in users ==> !MatchesQuery(users[k], id, token)
  {
    if id in users && MatchesQuery(users[id], id, token) then Some(users[id]) else None
  }

  /** What `findByToken` settles to: a rejection, or the query's answer. */
  datatype Lookup = Rejected | Resolved(user: Option<UserRecord>)

  /**
   * `User.findByToken(token)`: verify the token (a missing token fails too);
   * a decoded id that is not an ObjectId fails the query's cast; otherwise
   * run the query.
   */
  function FindByToken(users: map<Id, UserRecord>, token: Option<string>, secret: string,
                       crypto: Crypto, isValidId: string -> bool): (r: Lookup)
    ensures token.None? || crypto.verify(token.value, secret).None? ==> r == Rejected
    ensures r.Resolved? <==>
              token.Some? && crypto.verify(token.value, secret).Some?
              && isValidId(crypto.verify(token.value, secret).value.id)
    ensures r.Resolved? && r.user.Some? ==>
              var claims := crypto.verify(token.value, secret).value;
              claims.id in users && r.user.value == users[claims.id]
              && MatchesQuery(r.user.value, claims.id, token.value)
    ensures r.Resolved? && r.user.None? && Keyed(users) ==>
              var claims := crypto.verify(token.value, secret).value;
              forall k :: k in users ==> !MatchesQuery(users[k], claims.id, token.value)
  {
    if token.None? then Rejected
    else match crypto.verify(token.value, secret)
      case None => Rejected
      case Some(claims) =>
        if !isValidId(claims.id) then Rejected
        else Resolved(FindOne(users, claims.id, token.value))
  }

  /**
   * A token `generateAuthToken` issued, at any time, finds its user again
   * while the stored user still holds it in some entry and has some `auth`
   * entry.
   */
  lemma IssuedTokenFindsUser(users: map<Id, UserRecord>, u: UserRecord, secret: string, iat: int,
                             crypto: Crypto, isValidId: string -> bool)
    requires RoundTrips(crypto) && isValidId(u.id)
    requires u.id in users && users[u.id] == u
    requires HoldsToken(u, crypto.sign(Claims(u.id, "auth", iat), secret)) && HoldsAccess(u, "auth")
    ensures FindByToken(users, Some(crypto.sign(Claims(u.id, "auth", iat), secret)), secret, crypto, isValidId)
            == Resolved(Some(u))
  {
    var t := crypto.sign(Claims(u.id, "auth", iat), secret);
    assert crypto.verify(t, secret) == Some(Claims(u.id, "auth", iat));
    assert MatchesQuery(u, u.id, t);
  }

  /**
   * `generateAuthToken` only appends: every token a user held, and every
   * access level, is still held afterwards, so earlier tokens keep working.
   */
  lemma AppendKeepsTokens(u: UserRecord, e: TokenEntry, t: string, access: string)
    ensures HoldsToken(u, t) ==> HoldsToken(u.(tokens := u.tokens + [e]), t)
    ensures HoldsAccess(u, access) ==> HoldsAccess(u.(tokens := u.tokens + [e]), access)
    ensures HoldsToken(u.(tokens := u.tokens + [e]), e.token) && HoldsAccess(u.(tokens := u.tokens + [e]), e.access)
  {
    var ts := u.tokens + [e];
    assert ts[|u.tokens|] == e;
    if HoldsToken(u, t) {
      var i :| 0 <= i < |u.tokens| && u.tokens[i].token == t;
      assert ts[i] == u.tokens[i];
    }
    if HoldsAccess(u, access) {
      var i :| 0 <= i < |u.tokens| && u.tokens[i].access == access;
      assert ts[i] == u.tokens[i];
    }
  }

  /**
   * The two `tokens` conditions are checked on the array as a whole: a user
   * whose presented token is filed under another access level still matches
   * when some other entry has access "auth".
   */
  lemma TokenConditionsIndependent(id: Id, t: string, other: string)
    requires t != other
    ensures var u := UserRecord(id, None, None, None, [TokenEntry("x-auth", t), TokenEntry("auth", other)]);
            MatchesQuery(u, id, t)
            && !(exists i :: 0 <= i < |u.tokens| && u.tokens[i] == TokenEntry("auth", t))
  {
    var u := UserRecord(id, None, None, None, [TokenEntry("x-auth", t), TokenEntry("auth", other)]);
    assert u.tokens[0].token == t;
    assert u.tokens[1].access == "auth";
  }

  /**
   * The save inside `generateAuthToken` goes through for a user the store
   * accepted before: the new entry's access is "auth" and a signed token is
   * never empty.
   */
  lemma IssuedEntryKeepsAccepted(users: map<Id, UserRecord>, u: UserRecord, secret: string, iat: int,
                                 crypto: Crypto, isEmail: string -> bool)
    requires SignsNonEmpty(crypto)
    requires Accepts(users, u, isEmail)
    ensures Accepts(users, u.(tokens := u.tokens + [TokenEntry("auth", crypto.sign(Claims(u.id, "auth", iat), secret))]),
                    isEmail)
  {
    var e := TokenEntry("auth", crypto.sign(Claims(u.id, "auth", iat), secret));
    var ts := u.tokens + [e];
    forall i | 0 <= i < |ts| ensures ts[i].access != [] && ts[i].token != [] {
      if i < |u.tokens| {
        assert ts[i] == u.tokens[i];
      }
    }
  }

  // ---------------------------------------------------------------- documents

  /** An in-memory user document: the fields user.js reads and writes. */
  class UserDoc {
    const id: Id
    var name: Option<string>
    var email: Option<string>
    var password: Option<string>
    var tokens: seq<TokenEntry>
    /** `isModified('password')`. */
    var passwordModified: bool

    ghost predicate Valid()
      reads this
    {
      passwordModified ==> password.Some?
    }

    /** The record a save would write. */
    function Record(): (r: UserRecord)
      reads this
      ensures r.id == id && r.password == password && r.tokens == tokens
    {
      UserRecord(id, name, email, password, tokens)
    }

    /** `new User({name, email, password})`: the trim setters run and the password counts as modified. */
    constructor (id: Id, name: Option<string>, email: Option<string>, password: Option<string>)
      ensures Valid()
      ensures this.id == id && this.name == TrimPath(name) && this.email == TrimPath(email)
      ensures this.password == password && tokens == []
      ensures passwordModified == password.Some?
    {
      this.id := id;
      this.name := TrimPath(name);
      this.email := TrimPath(email);
      this.password := password;
      this.tokens := [];
      this.passwordModified := password.Some?;
    }

    /** The `pre('save')` hook. */
    method PreSave(hash: (string, string) -> string, salt: string)
      requires Valid()
      modifies this`password
      ensures Valid()
      ensures password == HashIfModified(old(password), passwordModified, hash, salt)
    {
      if passwordModified {
        var plain := password.value;
        password := Some(hash(plain, salt));
      }
    }

    /**
     * `generateAuthToken`: sign `{_id, access: 'auth'}` at time `now`, push
     * the entry, save. The token comes back only when the save succeeds; the
     * pushed entry stays on the document either way.
     */
    method GenerateAuthToken(store: UserStore, crypto: Crypto, secret: string, now: int, salt: string)
      returns (token: Option<string>)
      requires Valid() && store.Valid()
      modifies this, store
      ensures Valid() && store.Valid()
      ensures var t := crypto.sign(Claims(id, "auth", now), secret);
              && tokens == old(tokens) + [TokenEntry("auth", t)]
              && (token.Some? ==> token.value == t)
      ensures name == old(name) && email == old(email)
      ensures token.Some? <==> Accepts(old(store.users), old(Record()).(tokens := tokens), store.isEmail)
      ensures FieldsValid(old(Record()).(tokens := tokens), store.isEmail) ==>
                password == HashIfModified(old(password), old(passwordModified), crypto.hash, salt)
      ensures !FieldsValid(old(Record()).(tokens := tokens), store.isEmail) ==> password == old(password)
      ensures token.Some? ==> !passwordModified && store.users == old(store.users)[id := Record()]
      ensures token.None? ==> store.users == old(store.users) && passwordModified == old(passwordModified)
    {
      var access := "auth";
      var t := crypto.sign(Claims(id, access, now), secret);
      tokens := tokens + [TokenEntry(access, t)];
      var saved := store.Save(this, crypto.hash, salt);
      token := if saved then Some(t) else None;
    }
  }

  /** The users collection. */
  class UserStore {
    var users: map<Id, UserRecord>
    /** `validator.isEmail`. */
    const isEmail: string -> bool

    ghost predicate Valid()
      reads this
    {
      && Keyed(users)
      && forall j, k :: j in users && k in users && j != k ==> users[j].email != users[k].email
    }

    constructor (isEmail: string -> bool)
      ensures Valid() && users == map[] && this.isEmail == isEmail
    {
      users := map[];
      this.isEmail := isEmail;
    }

    /**
     * `doc.save()`: validate, run the pre-save hook, write. A validation
     * failure changes nothing. The `unique` index refuses the write only
     * after the hook has run: the document then keeps the hashed password,
     * and its password still counts as modified, since the modified flags
     * are reset only by a write that succeeds.
     */
    method Save(doc: UserDoc, hash: (string, string) -> string, salt: string) returns (ok: bool)
      requires Valid() && doc.Valid()
      modifies this`users, doc`password, doc`passwordModified
      ensures Valid() && doc.Valid()
      ensures ok == Accepts(old(users), old(doc.Record()), isEmail)
      ensures FieldsValid(old(doc.Record()), isEmail) ==>
                doc.password == HashIfModified(old(doc.password), old(doc.passwordModified), hash, salt)
      ensures !FieldsValid(old(doc.Record()), isEmail) ==> doc.password == old(doc.password)
      ensures ok ==> !doc.passwordModified && users == old(users)[doc.id := doc.Record()]
      ensures !ok ==> users == old(users) && doc.passwordModified == old(doc.passwordModified)
    {
      if !FieldsValid(doc.Record(), isEmail) {
        return false;
      }
      doc.PreSave(hash, salt);
      ok := EmailFree(users, doc.Record());
      if ok {
        doc.passwordModified := false;
        users := users[doc.id := doc.Record()];
      }
    }
  }

  /**
   * Two saves of a document whose password was just set: the first accepted
   * save hashes it and clears the modified flag, so the second leaves the
   * hash alone, and the store keeps the first hash. No password is hashed twice.
   */
  method HashedOnce(store: UserStore, doc: UserDoc, hash: (string, string) -> string,
                    salt1: string, salt2: string)
    returns (ok1: bool, ok2: bool)
    requires store.Valid() && doc.Valid() && doc.passwordModified
    modifies store`users, doc`password, doc`passwordModified
    ensures ok1 ==> doc.password == Some(hash(old(doc.password).value, salt1)) && !doc.passwordModified
    ensures ok1 && ok2 ==> doc.id in store.users && store.users[doc.id].password == Some(hash(old(doc.password).value, salt1))
  {
    ok1 := store.Save(doc, hash, salt1);
    ok2 := store.Save(doc, hash, salt2);
  }

  /**
   * A save refused by the `unique` index, then a retry under a free email:
   * the refused save already hashed the password and left it marked as
   * modified, so the retry hashes the hash, and the store keeps a password
   * the user's plaintext no longer matches.
   */
  method DuplicateEmailRetryHashesTwice(store: UserStore, doc: UserDoc, hash: (string, string) -> string,
                                        salt1: string, salt2: string, newEmail: string)
    returns (ok1: bool, ok2: bool)
    requires store.Valid() && doc.Valid() && doc.passwordModified
    requires FieldsValid(doc.Record(), store.isEmail) && !EmailFree(store.users, doc.Record())
    requires Strings.Utf16Length(hash(doc.password.value, salt1)) >= 6
    requires var e := Strings.Trim(newEmail);
             e != [] && store.isEmail(e) && forall k :: k in store.users ==> store.users[k].email != Some(e)
    modifies store`users, doc`password, doc`passwordModified, doc`email
    ensures !ok1 && ok2
    ensures doc.id in store.users
    ensures store.users[doc.id].password == Some(hash(hash(old(doc.password).value, salt1), salt2))
  {
    ok1 := store.Save(doc, hash, salt1);
    doc.email := TrimPath(Some(newEmail));
    ok2 := store.Save(doc, hash, salt2);
  }
}
