/** The entities agy-swap keeps: tokens, vault references, accounts, settings. */
module Model {

  datatype Option<+T> = None | Some(value: T)

  function Entry<K, V>(m: map<K, V>, k: K): Option<V> { if k in m then Some(m[k]) else None }

  /** A normalised (trimmed, lower-case) account address. */
  datatype Email = Email(text: string)

  /** A key of the account vault: `account:<email>`, or the same with a random suffix. */
  datatype Ref = Det(email: Email) | Nonce(email: Email, suffix: nat)

  /**
   A saved OAuth token string. `wrapped` says whether its JSON holds a "token" object,
   `hint` is the address its signed id_token claims, and `form` tells apart strings
   whose JSON means the same: form 0 is the text agy-swap reads back from a token file
   that it wrote itself.
   */
  datatype Token = Token(wrapped: bool, access: string, refresh: string,
                         expiry: Option<int>, hint: Option<Email>, form: nat)

  /**
   One entry of accounts.json. A hash field holds what was hashed: SHA-256 is taken to
   be injective. `notes` stands for every field no operation of this model reads.
   */
  datatype Account = Account(email: Email, secretRef: Option<Ref>, tokenData: Option<Token>,
                             tokenHash: Option<Token>, refreshHash: Option<string>,
                             expiresAt: Option<int>, notes: Notes)

  datatype Notes = Notes(snapshot: Option<nat>, eligibility: Option<nat>, tier: Tier, other: nat)

  /** The plan shown for an account: set by hand (Pro or Free), or whatever Google reported. */
  datatype Tier = NoTier | Manual(pro: bool) | Reported(plan: nat)

  /** The ordered map of accounts; accounts.json is its encoding. */
  datatype Doc = Doc(order: seq<Email>, byEmail: map<Email, Account>)

  const NO_ACCOUNTS := Doc([], map[])

  ghost predicate Distinct<T>(s: seq<T>) {
    forall i, j | 0 <= i < j < |s| :: s[i] != s[j]
  }

  ghost predicate WellFormed(d: Doc) {
    && Distinct(d.order)
    && (forall e :: e in d.order <==> e in d.byEmail)
    && (forall e | e in d.byEmail :: d.byEmail[e].email == e)
  }

  /** What accounts.json can hold: the decoder rejects duplicate and malformed entries. */
  type AccountsDoc = d: Doc | WellFormed(d) witness NO_ACCOUNTS

  function Put(d: Doc, e: Email, a: Account): (r: Doc)
    ensures d.order <= r.order && r.byEmail.Keys == d.byEmail.Keys + {e}
  {
    Doc(if e in d.byEmail then d.order else d.order + [e], d.byEmail[e := a])
  }

  /** The keys with the first occurrence of e removed. */
  function Without(s: seq<Email>, e: Email): (r: seq<Email>)
    ensures Distinct(s) ==> Distinct(r) && forall x :: x in r <==> x in s && x != e
  {
    if s == [] then []
    else if s[0] == e then s[1..]
    else
      var rest := Without(s[1..], e);
      assert forall x :: x in s <==> x == s[0] || x in s[1..];
      assert Distinct(s) ==> s[0] !in s[1..] && Distinct(s[1..]);
      assert forall x :: x in [s[0]] + rest <==> x == s[0] || x in rest;
      assert Distinct(rest) && s[0] !in rest ==> Distinct([s[0]] + rest);
      [s[0]] + rest
  }

  function Dropped(d: Doc, e: Email): (r: Doc)
    ensures WellFormed(d) ==> WellFormed(r)
    ensures e !in r.byEmail
  {
    if e in d.byEmail then Doc(Without(d.order, e), d.byEmail - {e}) else d
  }

  type Vault = map<Ref, Token>

  /** accountToken: the secret behind an account, or None where the source returns an error. */
  function Resolve(a: Account, vault: Vault): Option<Token> {
    match a.secretRef
    case Some(ref) =>
      if ref in vault then Some(vault[ref])
      else if Det(a.email) in vault then Some(vault[Det(a.email)])
      else None
    case None => a.tokenData
  }

  /** The vault keys `Resolve` may look at. */
  function NamedBy(a: Account): set<Ref> {
    match a.secretRef
    case Some(ref) => {ref, Det(a.email)}
    case None => {}
  }

  ghost predicate Names(d: Doc, ref: Ref) {
    exists e :: e in d.byEmail && ref in NamedBy(d.byEmail[e])
  }

  // ----- config.json -----

  datatype Binding = Binding(path: string, profile: string, mode: string)

  /** `preferences` stands for the policy, notification, history and UI sections. */
  datatype Settings = Settings(aliases: map<string, Email>, tags: map<Email, seq<string>>,
                               profiles: map<string, Profile>, targets: map<string, string>,
                               bindings: seq<Binding>, preferences: nat, updatedAt: int)

  datatype Profile = Profile(account: Email, family: string, policy: string, reserves: seq<Email>)

  const DEFAULT_SETTINGS := Settings(map[], map[], map[], map[], [], 0, 0)
}
