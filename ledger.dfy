/** The Guardian Coins balance: the fixed award of each action and the `$inc`
    update that credits it to one user. */
module Ledger {
  import opened Common
  import opened Models

  const QuizReward: nat := 100
  const MedicalReward: nat := 25
  const MoodReward: nat := 10
  const WorkoutReward: nat := 20
  const CompletionReward: nat := 30

  /** `User.findByIdAndUpdate(uid, {$inc: {guardianCoins: amount}})`: an unknown id matches no document. */
  function Credit(users: map<UserId, User>, uid: UserId, amount: nat): (r: map<UserId, User>)
    ensures r.Keys == users.Keys
    ensures uid in users ==> r[uid] == users[uid].(guardianCoins := users[uid].guardianCoins + amount)
    ensures forall u :: u in users && u != uid ==> r[u] == users[u]
  {
    if uid in users then users[uid := users[uid].(guardianCoins := users[uid].guardianCoins + amount)] else users
  }

  /** Different users have different emails. */
  ghost predicate EmailsUnique(users: map<UserId, User>)
  {
    forall u, v :: u in users && v in users && u != v ==> users[u].email != users[v].email
  }

  /** The user collection as the handlers keep it: every document satisfies the
      schema, emails are unique, and no balance is negative. */
  ghost predicate ValidUsers(users: map<UserId, User>)
  {
    && (forall u :: u in users ==> ValidUser(users[u]) && users[u].guardianCoins >= 0)
    && EmailsUnique(users)
  }

  /** No balance went down from `before` to `after`, and no user disappeared. */
  ghost predicate NoBalanceDecreased(before: map<UserId, User>, after: map<UserId, User>)
  {
    forall u :: u in before ==> u in after && after[u].guardianCoins >= before[u].guardianCoins
  }

  /** `after` has the same accounts as `before`, with no balance lowered. */
  ghost predicate SameAccounts(before: map<UserId, User>, after: map<UserId, User>)
  {
    && before.Keys == after.Keys
    && forall u :: u in before ==>
         && after[u].email == before[u].email && after[u].password == before[u].password
         && after[u].name == before[u].name && after[u].guardianCoins >= before[u].guardianCoins
  }

  lemma SameAccountsKeepDocuments(before: map<UserId, User>, after: map<UserId, User>)
    requires forall u :: u in before ==> ValidUser(before[u]) && before[u].guardianCoins >= 0
    requires SameAccounts(before, after)
    ensures forall u :: u in after ==> ValidUser(after[u]) && after[u].guardianCoins >= 0
  {
    forall u | u in after ensures ValidUser(after[u]) && after[u].guardianCoins >= 0 {
      assert ValidUser(before[u]);
    }
  }

  lemma SameAccountsKeepEmails(before: map<UserId, User>, after: map<UserId, User>)
    requires EmailsUnique(before) && SameAccounts(before, after)
    ensures EmailsUnique(after)
  {
  }

  /** An update that leaves every account's identity alone and lowers no balance keeps the collection valid. */
  lemma SameAccountsKeepValid(before: map<UserId, User>, after: map<UserId, User>)
    requires ValidUsers(before) && SameAccounts(before, after)
    ensures ValidUsers(after) && NoBalanceDecreased(before, after)
  {
    SameAccountsKeepDocuments(before, after);
    SameAccountsKeepEmails(before, after);
  }

  /** Some user already has the email: the unique index on `email` refuses a second one. */
  predicate EmailTaken(users: map<UserId, User>, email: string)
  {
    exists v :: v in users && users[v].email == email
  }

  /** Saving a new schema-valid document under an unused id and an unused email keeps the collection valid. */
  lemma AddUserKeepsValid(users: map<UserId, User>, id: UserId, u: User)
    requires ValidUsers(users)
    requires ValidUser(u) && u.guardianCoins >= 0
    requires id !in users
    requires !EmailTaken(users, u.email)
    ensures ValidUsers(users[id := u])
  {
    AddUserKeepsDocuments(users, id, u);
    AddUserKeepsEmails(users, id, u);
  }

  lemma AddUserKeepsDocuments(users: map<UserId, User>, id: UserId, u: User)
    requires forall w :: w in users ==> ValidUser(users[w]) && users[w].guardianCoins >= 0
    requires ValidUser(u) && u.guardianCoins >= 0
    ensures var after := users[id := u]; forall w :: w in after ==> ValidUser(after[w]) && after[w].guardianCoins >= 0
  {
  }

  lemma AddUserKeepsEmails(users: map<UserId, User>, id: UserId, u: User)
    requires EmailsUnique(users) && id !in users && !EmailTaken(users, u.email)
    ensures EmailsUnique(users[id := u])
  {
  }

  /** A credit keeps the collection valid and never lowers a balance. */
  lemma CreditKeepsValid(users: map<UserId, User>, uid: UserId, amount: nat)
    requires ValidUsers(users)
    ensures ValidUsers(Credit(users, uid, amount))
    ensures NoBalanceDecreased(users, Credit(users, uid, amount))
  {
    CreditSameAccounts(users, uid, amount);
    SameAccountsKeepValid(users, Credit(users, uid, amount));
  }

  lemma CreditSameAccounts(users: map<UserId, User>, uid: UserId, amount: nat)
    ensures SameAccounts(users, Credit(users, uid, amount))
  {
  }

  /** Two credits give the same collection in either order: the order in which
      two requests' increments land does not matter. */
  lemma CreditsCommute(users: map<UserId, User>, a: UserId, x: nat, b: UserId, y: nat)
    ensures Credit(Credit(users, a, x), b, y) == Credit(Credit(users, b, y), a, x)
  {
  }

  /** `n` successive credits of `amount` to `uid`. */
  function CreditTimes(users: map<UserId, User>, uid: UserId, amount: nat, n: nat): map<UserId, User>
    decreases n
  {
    if n == 0 then users else Credit(CreditTimes(users, uid, amount, n - 1), uid, amount)
  }

  /** `n` credits of `amount` add exactly `n * amount` to that user's balance and touch nobody else. */
  lemma {:induction false} CreditTimesAdds(users: map<UserId, User>, uid: UserId, amount: nat, n: nat)
    ensures CreditTimes(users, uid, amount, n).Keys == users.Keys
    ensures uid in users ==>
      CreditTimes(users, uid, amount, n)[uid].guardianCoins == users[uid].guardianCoins + n * amount
    ensures forall u :: u in users && u != uid ==> CreditTimes(users, uid, amount, n)[u] == users[u]
    decreases n
  {
    if n > 0 {
      CreditTimesAdds(users, uid, amount, n - 1);
      assert n * amount == (n - 1) * amount + amount;
    }
  }
}
