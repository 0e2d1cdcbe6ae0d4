/**
 * The user account record: its fields, the defaults a new row receives and the column
 * constraints the schema declares. Balances are integer minor units (hundredths of a kyat).
 */
module Accounts {
  import opened Wrappers
  import opened Text

  /** Minor units per kyat: the balance column keeps two decimal places. */
  const MinorPerKyat: int := 100

  datatype AccountStatus = Active | Inactive | Suspended

  datatype Account = Account(
    name: string,
    phone: string,
    email: Option<string>,
    balance: int,
    status: AccountStatus,
    loginAttempts: int)

  /** The phone column's pattern `^\+?959\d{7,9}$`. */
  predicate StoredPhone(phone: string) {
    var rest := if StartsWith(phone, "+") then phone[1..] else phone;
    StartsWith(rest, "959") && 7 <= |rest| - 3 <= 9 && AllDigits(rest[3..])
  }

  /**
   * The shape the e-mail column's `isEmail` check demands, simplified: a non-empty local part
   * without `@`, one `@`, and a domain without `@` holding a dot that is neither first nor last.
   */
  predicate EmailShape(e: string) {
    exists i :: 0 <= i < |e| && e[i] == '@' && EmailParts(e[..i], e[i + 1..])
  }

  predicate EmailParts(local: string, domain: string) {
    && |local| > 0 && '@' !in local
    && '@' !in domain && |domain| >= 3 && '.' in domain[1..|domain| - 1]
  }

  /**
   * The per-row constraints: balance at least 0, login attempts at least 0, a well-formed phone,
   * and a well-formed e-mail when one is present.
   */
  predicate AccountValid(a: Account) {
    && a.balance >= 0 && a.loginAttempts >= 0 && StoredPhone(a.phone)
    && (a.email.Some? ==> EmailShape(a.email.value))
  }

  /** The unique indexes: no two rows share a phone, nor a present e-mail (absent e-mails may repeat). */
  predicate UniqueContacts(accounts: map<nat, Account>) {
    forall u, v :: u in accounts && v in accounts && u != v ==>
      accounts[u].phone != accounts[v].phone &&
      (accounts[u].email.Some? && accounts[v].email.Some? ==> accounts[u].email != accounts[v].email)
  }

  /** Every row meets its constraints and the unique indexes hold. */
  predicate AccountsValid(accounts: map<nat, Account>) {
    (forall u :: u in accounts ==> AccountValid(accounts[u])) && UniqueContacts(accounts)
  }

  /** A freshly inserted row: zero balance, active, no failed logins. */
  function NewAccount(name: string, phone: string, email: Option<string>): (a: Account)
    ensures a.name == name && a.phone == phone && a.email == email
    ensures a.balance == 0 && a.status == Active && a.loginAttempts == 0
    ensures AccountValid(a) <==> StoredPhone(phone) && (email.Some? ==> EmailShape(email.value))
  {
    Account(name, phone, email, 0, Active, 0)
  }

  /** A well-formed phone with an e-mail that is not one is refused; with a real one it is accepted. */
  lemma NewAccountChecksEmail()
    ensures !AccountValid(NewAccount("A", "+959123456789", Some("x")))
    ensures AccountValid(NewAccount("A", "+959123456789", Some("a@b.mm")))
  {
    assert EmailParts("a", "b.mm") by {
      assert "b.mm"[1..3] == ".m";
      assert "b.mm"[1..3][0] == '.';
    }
    assert "a@b.mm"[1] == '@' && "a@b.mm"[..1] == "a" && "a@b.mm"[2..] == "b.mm";
    assert StoredPhone("+959123456789") by {
      assert "+959123456789"[1..] == "959123456789";
      assert "959123456789"[3..] == "123456789";
    }
  }

  /** Inserting a new row keeps the unique indexes exactly when its phone and present e-mail are unused. */
  lemma InsertKeepsUnique(accounts: map<nat, Account>, id: nat, a: Account)
    requires UniqueContacts(accounts) && id !in accounts
    ensures UniqueContacts(accounts[id := a]) <==>
      && (forall u :: u in accounts ==> accounts[u].phone != a.phone)
      && (a.email.Some? ==> forall u :: u in accounts ==> accounts[u].email != a.email)
  {
    var grown := accounts[id := a];
    if UniqueContacts(grown) {
      forall u | u in accounts
        ensures accounts[u].phone != a.phone
        ensures a.email.Some? ==> accounts[u].email != a.email
      {
        assert u in grown && id in grown && u != id;
      }
    }
  }

  /** Changing only a row's balance keeps every constraint except possibly the balance bound. */
  lemma SetBalanceKeepsValid(accounts: map<nat, Account>, u: nat, balance: int)
    requires AccountsValid(accounts) && u in accounts && balance >= 0
    ensures AccountsValid(accounts[u := accounts[u].(balance := balance)])
  {
  }
}
