/** Accounts of registered services (models.py): saving a service reconciles its stored accounts with the
    submitted ones in one transaction.  Passwords are stored encrypted and never sent back, so a submitted
    account without a ciphertext keeps the stored one. */
module ServiceAccounts {
  import opened Options

  type Id = nat

  datatype Account = Account(
    service: Id, purpose: string, username: string, secretType: string, cipher: Option<string>, remark: string)

  /** id None: a new account.  cipher None: keep the stored one. */
  datatype Submitted = Submitted(
    id: Option<Id>, purpose: string, username: string, secretType: string, cipher: Option<string>, remark: string)

  /** next: the next id of the AUTOINCREMENT key. */
  datatype Table = Table(rows: map<Id, Account>, next: Id)

  /** UNIQUE(server, name). */
  datatype Service = Service(server: Id, name: string, columns: string)

  const PASSWORD: string := "密码"

  datatype Failure = DuplicateName | UnknownAccount | MissingPassword

  datatype Outcome<T> = Success(value: T) | Failed(why: Failure)

  // ---------------- reconciliation ----------------

  function Inserted(service: Id, s: Submitted): Account {
    Account(service, s.purpose, s.username, s.secretType, s.cipher, s.remark)
  }

  function Updated(a: Account, s: Submitted): Account {
    Account(a.service, s.purpose, s.username, s.secretType,
            if s.cipher.None? then a.cipher else s.cipher, s.remark)
  }

  /** UPDATE ... WHERE id = ? AND service_id = ?, or INSERT. */
  function Written(t: Table, service: Id, s: Submitted): Table {
    match s.id
    case None => Table(t.rows[t.next := Inserted(service, s)], t.next + 1)
    case Some(id) =>
      if id in t.rows && t.rows[id].service == service then t.(rows := t.rows[id := Updated(t.rows[id], s)]) else t
  }

  function AllWritten(t: Table, service: Id, accounts: seq<Submitted>): Table {
    if accounts == [] then t
    else Written(AllWritten(t, service, accounts[..|accounts| - 1]), service, accounts[|accounts| - 1])
  }

  function Existing(t: Table, service: Id): set<Id> {
    set id | id in t.rows && t.rows[id].service == service
  }

  function Mentioned(accounts: seq<Submitted>): set<Id> {
    set k | 0 <= k < |accounts| && accounts[k].id.Some? :: accounts[k].id.value
  }

  function Without(t: Table, ids: set<Id>): Table {
    t.(rows := map id | id in t.rows && id !in ids :: t.rows[id])
  }

  /** The table after a reconciliation that nothing stopped. */
  function Synced(t: Table, service: Id, accounts: seq<Submitted>): Table {
    Without(AllWritten(t, service, accounts), Existing(t, service) - Mentioned(accounts))
  }

  predicate Sealed(a: Account) {
    a.secretType == PASSWORD ==> a.cipher.Some? && a.cipher.value != ""
  }

  predicate ServiceSealed(t: Table, service: Id) {
    forall id :: id in t.rows && t.rows[id].service == service ==> Sealed(t.rows[id])
  }

  predicate AllSealed(t: Table) {
    forall id :: id in t.rows ==> Sealed(t.rows[id])
  }

  predicate WellFormed(t: Table) {
    forall id :: id in t.rows ==> id < t.next
  }

  function SyncResult(t: Table, service: Id, accounts: seq<Submitted>): Outcome<Table> {
    if !(Mentioned(accounts) <= Existing(t, service)) then Failed(UnknownAccount)
    else if !ServiceSealed(Synced(t, service, accounts), service) then Failed(MissingPassword)
    else Success(Synced(t, service, accounts))
  }

  predicate NameTaken(services: map<Id, Service>, self: Option<Id>, values: Service) {
    exists id :: id in services && Some(id) != self && services[id].server == values.server
        && services[id].name == values.name
  }

  /** No two services of one server share a name. */
  predicate UniqueNames(services: map<Id, Service>) {
    forall id, other :: id in services && other in services && id != other ==>
      services[id].server != services[other].server || services[id].name != services[other].name
  }

  class ServiceStore {
    var services: map<Id, Service>
    var nextService: Id
    var table: Table

    constructor ()
      ensures services == map[] && nextService == 1 && table == Table(map[], 1)
    {
      services, nextService, table := map[], 1, Table(map[], 1);
    }

    /** _sync_service_accounts.  A failure leaves the table half done, for the caller to roll back. */
    method SyncServiceAccounts(service: Id, accounts: seq<Submitted>) returns (failure: Option<Failure>)
      modifies this`table
      ensures match SyncResult(old(table), service, accounts)
              case Success(t) => failure == None && table == t
              case Failed(why) => failure == Some(why)
    {
      ghost var before := table;
      var existingIds := Existing(table, service);
      var keptIds: set<Id> := {};
      for k := 0 to |accounts|
        invariant table == AllWritten(before, service, accounts[..k])
        invariant keptIds == Mentioned(accounts[..k]) <= existingIds
      {
        var account := accounts[k];
        assert accounts[..k + 1][..k] == accounts[..k];
        MentionedMore(accounts, k);
        if account.id.None? {
          table := Table(table.rows[table.next := Inserted(service, account)], table.next + 1);
        } else {
          if account.id.value !in existingIds {
            MentionedMonotone(accounts, k + 1);
            return Some(UnknownAccount);
          }
          keptIds := keptIds + {account.id.value};
          table := Written(table, service, account);
        }
      }
      assert accounts[..|accounts|] == accounts;
      table := Without(table, existingIds - keptIds);
      if !ServiceSealed(table, service) { return Some(MissingPassword); }
      return None;
    }

    method AddService(values: Service, accounts: seq<Submitted>) returns (r: Outcome<Id>)
      modifies this
      ensures r.Failed? ==> services == old(services) && nextService == old(nextService) && table == old(table)
      ensures r == if NameTaken(old(services), None, values) then Failed(DuplicateName)
                   else match SyncResult(old(table), old(nextService), accounts)
                        case Failed(why) => Failed(why)
                        case Success(_) => Success(old(nextService))
      ensures r.Success? ==>
                && services == old(services)[r.value := values] && nextService == r.value + 1
                && Success(table) == SyncResult(old(table), r.value, accounts)
      ensures r == Failed(DuplicateName) <==>
                exists id :: id in old(services) && old(services)[id].server == values.server
                             && old(services)[id].name == values.name
      ensures old(UniqueNames(services)) ==> UniqueNames(services)
      ensures WellFormed(old(table)) && AllSealed(old(table)) ==> WellFormed(table) && AllSealed(table)
    {
      if NameTaken(services, None, values) { return Failed(DuplicateName); }
      var saved := (services, nextService, table);
      var service := nextService;
      services := services[service := values];
      nextService := service + 1;
      var failure := SyncServiceAccounts(service, accounts);
      if failure.Some? {
        services, nextService, table := saved.0, saved.1, saved.2;
        return Failed(failure.value);
      }
      if WellFormed(saved.2) && AllSealed(saved.2) { SyncKeepsSealed(saved.2, service, accounts); }
      r := Success(service);
    }

    /** Success(false): there is no such service. */
    method UpdateService(service: Id, values: Service, accounts: seq<Submitted>, accountsProvided: bool)
      returns (r: Outcome<bool>)
      modifies this`services, this`table
      ensures r != Success(true) ==> services == old(services) && table == old(table)
      ensures r == if service !in old(services) then Success(false)
                   else if NameTaken(old(services), Some(service), values) then Failed(DuplicateName)
                   else if !accountsProvided then Success(true)
                   else match SyncResult(old(table), service, accounts)
                        case Failed(why) => Failed(why)
                        case Success(_) => Success(true)
      ensures r == Success(true) ==>
                && services == old(services)[service := values]
                && if accountsProvided then Success(table) == SyncResult(old(table), service, accounts)
                   else table == old(table)
      ensures r == Failed(DuplicateName) <==>
                service in old(services)
                && exists id :: id in old(services) && id != service && old(services)[id].server == values.server
                                && old(services)[id].name == values.name
      ensures old(UniqueNames(services)) ==> UniqueNames(services)
      ensures WellFormed(old(table)) && AllSealed(old(table)) ==> WellFormed(table) && AllSealed(table)
    {
      if service !in services { return Success(false); }
      if NameTaken(services, Some(service), values) { return Failed(DuplicateName); }
      var saved := (services, table);
      services := services[service := values];
      if accountsProvided {
        var failure := SyncServiceAccounts(service, accounts);
        if failure.Some? {
          services, table := saved.0, saved.1;
          return Failed(failure.value);
        }
        if WellFormed(saved.1) && AllSealed(saved.1) { SyncKeepsSealed(saved.1, service, accounts); }
      }
      r := Success(true);
    }
  }

  lemma MentionedMore(accounts: seq<Submitted>, k: nat)
    requires k < |accounts|
    ensures Mentioned(accounts[..k + 1])
            == Mentioned(accounts[..k]) + (if accounts[k].id.Some? then {accounts[k].id.value} else {})
  {
    var more, less := accounts[..k + 1], accounts[..k];
    forall id | id in Mentioned(more) ensures id in Mentioned(less) || accounts[k].id == Some(id) {
      var j :| 0 <= j < |more| && more[j].id == Some(id);
      if j < k { assert less[j].id == Some(id); }
    }
    forall id | id in Mentioned(less) ensures id in Mentioned(more) {
      var j :| 0 <= j < |less| && less[j].id == Some(id);
      assert more[j].id == Some(id);
    }
    if accounts[k].id.Some? { assert more[k].id == accounts[k].id; }
  }

  lemma MentionedMonotone(accounts: seq<Submitted>, k: nat)
    requires k <= |accounts|
    ensures Mentioned(accounts[..k]) <= Mentioned(accounts)
  {
    forall id | id in Mentioned(accounts[..k]) ensures id in Mentioned(accounts) {
      var j :| 0 <= j < k && accounts[..k][j].id == Some(id);
      assert accounts[j].id == Some(id);
    }
  }

  // ---------------- what a reconciliation leaves ----------------

  /** The number of new accounts among the submitted ones. */
  function NewCount(accounts: seq<Submitted>): nat {
    if accounts == [] then 0
    else NewCount(accounts[..|accounts| - 1]) + (if accounts[|accounts| - 1].id.None? then 1 else 0)
  }

  /** The last submission for a stored account. */
  function LastFor(accounts: seq<Submitted>, id: Id): Option<Submitted> {
    if accounts == [] then None
    else if accounts[|accounts| - 1].id == Some(id) then Some(accounts[|accounts| - 1])
    else LastFor(accounts[..|accounts| - 1], id)
  }

  /** The last ciphertext submitted for a stored account. */
  function LastCipher(accounts: seq<Submitted>, id: Id): Option<string> {
    if accounts == [] then None
    else if accounts[|accounts| - 1].id == Some(id) && accounts[|accounts| - 1].cipher.Some? then
      accounts[|accounts| - 1].cipher
    else LastCipher(accounts[..|accounts| - 1], id)
  }

  predicate Carries(a: Account, service: Id, s: Submitted) {
    a.service == service && a.purpose == s.purpose && a.username == s.username && a.secretType == s.secretType
    && a.remark == s.remark
  }

  lemma {:induction false} WrittenRows(t: Table, service: Id, accounts: seq<Submitted>, id: Id)
    requires WellFormed(t)
    ensures var t' := AllWritten(t, service, accounts);
            && t'.next == t.next + NewCount(accounts)
            && (id in t'.rows <==> id in t.rows || t.next <= id < t'.next)
            && (id in t.rows ==> t'.rows[id].service == t.rows[id].service)
            && (id in t.rows && t.rows[id].service != service ==> t'.rows[id] == t.rows[id])
            && (t.next <= id < t'.next ==> t'.rows[id].service == service)
  {
    if accounts != [] {
      WrittenRows(t, service, accounts[..|accounts| - 1], id);
    }
  }

  lemma {:induction false} LastForMentioned(accounts: seq<Submitted>, id: Id)
    ensures id in Mentioned(accounts) <==> LastFor(accounts, id).Some?
    ensures LastFor(accounts, id).Some? ==>
              LastFor(accounts, id).value in accounts && LastFor(accounts, id).value.id == Some(id)
  {
    if accounts != [] {
      var n := |accounts| - 1;
      LastForMentioned(accounts[..n], id);
      MentionedMore(accounts, n);
      assert accounts[..n + 1] == accounts;
    }
  }

  lemma {:induction false} KeptRow(t: Table, service: Id, accounts: seq<Submitted>, id: Id)
    requires WellFormed(t) && id in t.rows && t.rows[id].service == service
    ensures var t', last := AllWritten(t, service, accounts), LastFor(accounts, id);
            && id in t'.rows
            && (last.None? ==> t'.rows[id] == t.rows[id])
            && (last.Some? ==>
                  && Carries(t'.rows[id], service, last.value)
                  && (LastCipher(accounts, id).Some? ==> t'.rows[id].cipher == LastCipher(accounts, id))
                  && (LastCipher(accounts, id).None? ==> t'.rows[id].cipher == t.rows[id].cipher))
  {
    if accounts != [] {
      var n := |accounts| - 1;
      KeptRow(t, service, accounts[..n], id);
      WrittenRows(t, service, accounts[..n], id);
      if LastFor(accounts[..n], id).None? { NoCipherEither(accounts[..n], id); }
    }
  }

  lemma {:induction false} NoCipherEither(accounts: seq<Submitted>, id: Id)
    requires LastFor(accounts, id).None?
    ensures LastCipher(accounts, id).None?
  {
    if accounts != [] {
      NoCipherEither(accounts[..|accounts| - 1], id);
    }
  }

  /** A stored account of the service survives exactly when it was submitted; it then carries the last
      submission's fields and the last ciphertext submitted for it, or the old one if there was none. */
  lemma StoredAccount(t: Table, service: Id, accounts: seq<Submitted>, id: Id)
    requires WellFormed(t) && id in t.rows && t.rows[id].service == service
    ensures var t', last := Synced(t, service, accounts), LastFor(accounts, id);
            && (id in t'.rows <==> last.Some?)
            && (last.Some? ==>
                  && Carries(t'.rows[id], service, last.value)
                  && (LastCipher(accounts, id).Some? ==> t'.rows[id].cipher == LastCipher(accounts, id))
                  && (LastCipher(accounts, id).None? ==> t'.rows[id].cipher == t.rows[id].cipher))
  {
    LastForMentioned(accounts, id);
    KeptRow(t, service, accounts, id);
  }

  /** Accounts of other services are untouched. */
  lemma OtherServices(t: Table, service: Id, accounts: seq<Submitted>, id: Id)
    requires WellFormed(t) && id in t.rows && t.rows[id].service != service
    ensures var t' := Synced(t, service, accounts); id in t'.rows && t'.rows[id] == t.rows[id]
  {
    WrittenRows(t, service, accounts, id);
  }

  lemma {:induction false} WrittenAccount(t: Table, service: Id, accounts: seq<Submitted>, k: nat)
    requires WellFormed(t) && k < |accounts| && accounts[k].id.None?
    requires Mentioned(accounts) <= Existing(t, service)
    ensures var id, t' := t.next + NewCount(accounts[..k]), AllWritten(t, service, accounts);
            id in t'.rows && t'.rows[id] == Inserted(service, accounts[k])
  {
    var n := |accounts| - 1;
    WrittenRows(t, service, accounts[..n], t.next);
    if k < n {
      MentionedMonotone(accounts, n);
      WrittenAccount(t, service, accounts[..n], k);
      assert accounts[..n][..k] == accounts[..k];
      var id := t.next + NewCount(accounts[..k]);
      WrittenRows(t, service, accounts[..n], id);
      assert accounts[n].id.Some? ==> accounts[n].id.value in Mentioned(accounts);
      NewRowStays(AllWritten(t, service, accounts[..n]), service, accounts[n], id);
    }
  }

  lemma NewRowStays(t: Table, service: Id, s: Submitted, id: Id)
    requires id in t.rows && id < t.next && s.id != Some(id)
    ensures id in Written(t, service, s).rows && Written(t, service, s).rows[id] == t.rows[id]
  {
  }

  /** The new accounts are exactly the submissions without an id, numbered on in the order submitted: each
      is in the table afterwards, and what else is there has an older id. */
  lemma NewAccount(t: Table, service: Id, accounts: seq<Submitted>, k: nat)
    requires WellFormed(t) && k < |accounts| && accounts[k].id.None?
    requires Mentioned(accounts) <= Existing(t, service)
    ensures NumberedIn(t, Synced(t, service, accounts), service, accounts, k)
  {
    WrittenAccount(t, service, accounts, k);
    InsertedCarries(service, accounts[k]);
    NewRowSurvives(t, service, accounts, t.next + NewCount(accounts[..k]), AllWritten(t, service, accounts));
  }

  /** Submission k, which is for a new account, is in the table under its number, with all its columns. */
  predicate NumberedIn(t: Table, t': Table, service: Id, accounts: seq<Submitted>, k: nat)
    requires k < |accounts|
  {
    var id := t.next + NewCount(accounts[..k]);
    && id < t'.next == t.next + NewCount(accounts)
    && id in t'.rows && Carries(t'.rows[id], service, accounts[k]) && t'.rows[id].cipher == accounts[k].cipher
  }

  lemma InsertedCarries(service: Id, s: Submitted)
    ensures Carries(Inserted(service, s), service, s) && Inserted(service, s).cipher == s.cipher
  {
  }

  /** The deletions only concern stored accounts. */
  lemma NewRowSurvives(t: Table, service: Id, accounts: seq<Submitted>, id: Id, written: Table)
    requires WellFormed(t) && written == AllWritten(t, service, accounts) && id >= t.next && id in written.rows
    ensures var t' := Synced(t, service, accounts);
            id in t'.rows && t'.rows[id] == written.rows[id] && id < t'.next == t.next + NewCount(accounts)
  {
    WrittenRows(t, service, accounts, id);
    assert id !in Existing(t, service);
  }

  /** Somebody submitted an account that the service does not have. */
  predicate Unknown(t: Table, service: Id, accounts: seq<Submitted>) {
    exists k :: 0 <= k < |accounts| && !Belongs(t, service, accounts[k])
  }

  /** The submission is for a new account or for one of the service. */
  predicate Belongs(t: Table, service: Id, s: Submitted) {
    s.id.None? || (s.id.value in t.rows && t.rows[s.id.value].service == service)
  }

  predicate NoCipher(cipher: Option<string>) {
    cipher == None || cipher == Some("")
  }

  /** The stored account is to hold a password, but none was submitted for it or stored. */
  predicate LacksPassword(t: Table, accounts: seq<Submitted>, id: Id)
    requires id in t.rows
  {
    var last, cipher := LastFor(accounts, id), LastCipher(accounts, id);
    last.Some? && last.value.secretType == "密码" && NoCipher(if cipher.Some? then cipher else t.rows[id].cipher)
  }

  /** A new account is to hold a password, but comes without one. */
  predicate ComesWithout(s: Submitted) {
    s.id.None? && s.secretType == "密码" && NoCipher(s.cipher)
  }

  /** Exactly when a save fails, and why: an account that the service does not have is refused whatever else is wrong;
      otherwise a password is missing if a stored account lacks one or a new one comes without. */
  lemma SyncFailsIff(t: Table, service: Id, accounts: seq<Submitted>)
    requires WellFormed(t)
    ensures var result := SyncResult(t, service, accounts);
            && (result == Failed(UnknownAccount) <==> Unknown(t, service, accounts))
            && (result == Failed(MissingPassword) <==>
                  && !Unknown(t, service, accounts)
                  && ((exists id :: id in t.rows && t.rows[id].service == service && LacksPassword(t, accounts, id))
                      || exists k :: 0 <= k < |accounts| && ComesWithout(accounts[k])))
            && (result.Success? ==> result.value == Synced(t, service, accounts))
            && result != Failed(DuplicateName)
  {
    UnknownIff(t, service, accounts);
    if !Unknown(t, service, accounts) {
      MissingIff(t, service, accounts);
    }
  }

  lemma UnknownIff(t: Table, service: Id, accounts: seq<Submitted>)
    ensures Mentioned(accounts) <= Existing(t, service) <==> !Unknown(t, service, accounts)
  {
    if !(Mentioned(accounts) <= Existing(t, service)) {
      var id :| id in Mentioned(accounts) && id !in Existing(t, service);
      var k :| 0 <= k < |accounts| && accounts[k].id == Some(id);
      assert !Belongs(t, service, accounts[k]);
    }
    if k :| 0 <= k < |accounts| && !Belongs(t, service, accounts[k]) {
      assert accounts[k].id.value in Mentioned(accounts);
    }
  }

  lemma {:induction false} NewIdIsNumbered(accounts: seq<Submitted>, n: nat) returns (k: nat)
    requires n < NewCount(accounts)
    ensures k < |accounts| && accounts[k].id.None? && NewCount(accounts[..k]) == n
  {
    var last := |accounts| - 1;
    if n < NewCount(accounts[..last]) {
      k := NewIdIsNumbered(accounts[..last], n);
      assert accounts[..last][..k] == accounts[..k];
    } else {
      k := last;
    }
  }

  lemma StoredIsSealedIff(t: Table, service: Id, accounts: seq<Submitted>, id: Id)
    requires WellFormed(t) && id in t.rows && t.rows[id].service == service
    ensures var t' := Synced(t, service, accounts);
            (id in t'.rows && !Sealed(t'.rows[id])) <==> LacksPassword(t, accounts, id)
  {
    StoredAccount(t, service, accounts, id);
  }

  lemma MissingIff(t: Table, service: Id, accounts: seq<Submitted>)
    requires WellFormed(t) && Mentioned(accounts) <= Existing(t, service)
    ensures !ServiceSealed(Synced(t, service, accounts), service) <==>
              || (exists id :: id in t.rows && t.rows[id].service == service && LacksPassword(t, accounts, id))
              || exists k :: 0 <= k < |accounts| && ComesWithout(accounts[k])
  {
    var t' := Synced(t, service, accounts);
    if !ServiceSealed(t', service) {
      var id :| id in t'.rows && t'.rows[id].service == service && !Sealed(t'.rows[id]);
      WrittenRows(t, service, accounts, id);
      if id in t.rows {
        StoredIsSealedIff(t, service, accounts, id);
      } else {
        var k := NewIdIsNumbered(accounts, id - t.next);
        NewAccount(t, service, accounts, k);
      }
    }
    if id :| id in t.rows && t.rows[id].service == service && LacksPassword(t, accounts, id) {
      StoredIsSealedIff(t, service, accounts, id);
      WrittenRows(t, service, accounts, id);
    }
    if k :| 0 <= k < |accounts| && ComesWithout(accounts[k]) {
      NewAccount(t, service, accounts, k);
    }
  }

  /** Ids after a reconciliation: those of other services, those submitted, and one per new account. */
  lemma ExactlyTheSubmitted(t: Table, service: Id, accounts: seq<Submitted>)
    requires WellFormed(t) && Mentioned(accounts) <= Existing(t, service)
    ensures var t' := Synced(t, service, accounts);
            && WellFormed(t')
            && (forall id: Id :: id in Existing(t', service)
                  <==> id in Mentioned(accounts) || t.next <= id < t.next + NewCount(accounts))
  {
    var t' := Synced(t, service, accounts);
    forall id: Id ensures id in t'.rows ==> id < t'.next {
      WrittenRows(t, service, accounts, id);
    }
    forall id: Id
      ensures id in Existing(t', service)
              <==> id in Mentioned(accounts) || t.next <= id < t.next + NewCount(accounts)
    {
      WrittenRows(t, service, accounts, id);
    }
  }

  /** A successful save never leaves a password account without a ciphertext, in any service. */
  lemma SyncKeepsSealed(t: Table, service: Id, accounts: seq<Submitted>)
    requires WellFormed(t) && AllSealed(t)
    ensures match SyncResult(t, service, accounts)
            case Success(t') => WellFormed(t') && AllSealed(t')
            case Failed(_) => true
  {
    if SyncResult(t, service, accounts).Success? {
      ExactlyTheSubmitted(t, service, accounts);
      var t' := Synced(t, service, accounts);
      forall id | id in t'.rows ensures Sealed(t'.rows[id]) {
        WrittenRows(t, service, accounts, id);
        if id in t.rows && t.rows[id].service != service { OtherServices(t, service, accounts, id); }
      }
    }
  }

  /** The form that an unchanged editor sends back: stored accounts without their ciphertext. */
  predicate Unedited(t: Table, service: Id, accounts: seq<Submitted>) {
    && Mentioned(accounts) == Existing(t, service)
    && forall k :: 0 <= k < |accounts| ==>
         && accounts[k].id.Some? && accounts[k].cipher.None?
         && accounts[k].id.value in t.rows && Carries(t.rows[accounts[k].id.value], service, accounts[k])
  }

  lemma {:induction false} NothingNew(accounts: seq<Submitted>, id: Id)
    requires forall k :: 0 <= k < |accounts| ==> accounts[k].id.Some? && accounts[k].cipher.None?
    ensures NewCount(accounts) == 0 && LastCipher(accounts, id).None?
  {
    if accounts != [] {
      NothingNew(accounts[..|accounts| - 1], id);
    }
  }

  /** Saving an unedited form changes no account and loses no password. */
  lemma UneditedFormChangesNothing(t: Table, service: Id, accounts: seq<Submitted>)
    requires WellFormed(t) && AllSealed(t) && Unedited(t, service, accounts)
    ensures SyncResult(t, service, accounts) == Success(t)
  {
    var t' := Synced(t, service, accounts);
    NothingNew(accounts, 0);
    WrittenRows(t, service, accounts, 0);
    forall id
      ensures id in t'.rows <==> id in t.rows
      ensures id in t.rows ==> t'.rows[id] == t.rows[id]
    {
      WrittenRows(t, service, accounts, id);
      NothingNew(accounts, id);
      LastForMentioned(accounts, id);
      if id in t.rows {
        if t.rows[id].service == service {
          StoredAccount(t, service, accounts, id);
        } else {
          OtherServices(t, service, accounts, id);
        }
      }
    }
    assert t'.rows == t.rows;
  }
}
