/**
 * The Account document: the stored credential of one user, and the save hook
 * that checks reuse, hashes a changed password and rotates the history.
 */
module AccountModel {
  import opened Wrappers
  import opened Password
  import opened Services

  /** The history keeps the newest three hashes. */
  const MaxHistory: nat := 3

  const ReuseMessage := "New password cannot be the same as previous passwords."
  const PasswordRequiredMessage := "Account validation failed: password: Path `password` is required."

  datatype Status = Active | Closed | Frozen

  function StatusName(s: Status): (name: string)
    ensures name == "Active" <==> s == Active
    ensures name == "Closed" <==> s == Closed
    ensures name == "Frozen" <==> s == Frozen
  {
    match s
    case Active => "Active"
    case Closed => "Closed"
    case Frozen => "Frozen"
  }

  /**
   * The `password` path: the plaintext just assigned to it, or the bcrypt hash
   * the save hook replaced it with.
   */
  datatype Secret = Plain(text: string) | Hashed(digest: Digest)

  datatype SaveResult = Saved | SaveFailed(message: string)

  /**
   * The hook's history update: push the new entry, then drop the oldest one
   * when that made the history longer than MaxHistory.
   */
  function Rotate(history: seq<PreviousPassword>, entry: PreviousPassword): (r: seq<PreviousPassword>)
    ensures r != [] && r[|r| - 1] == entry
    ensures |history| <= MaxHistory ==> |r| <= MaxHistory
    ensures |history| < MaxHistory ==> r == history + [entry]
    ensures |history| >= MaxHistory ==> r == history[1..] + [entry]
  {
    var pushed := history + [entry];
    if |pushed| > MaxHistory then pushed[1..] else pushed
  }

  /** The last MaxHistory elements of `s` (all of them if there are fewer). */
  function Newest(s: seq<PreviousPassword>): (r: seq<PreviousPassword>)
    ensures |r| == if |s| <= MaxHistory then |s| else MaxHistory
  {
    if |s| <= MaxHistory then s else s[|s| - MaxHistory..]
  }

  /** The history after one successful save per entry of `entries`, in order. */
  function RotateAll(history: seq<PreviousPassword>, entries: seq<PreviousPassword>): seq<PreviousPassword>
    decreases |entries|
  {
    if entries == [] then history else RotateAll(Rotate(history, entries[0]), entries[1..])
  }

  /** Dropping the first element never changes the newest MaxHistory of a long sequence. */
  lemma {:induction false} NewestDropsFront(s: seq<PreviousPassword>, rest: seq<PreviousPassword>)
    requires |s| > MaxHistory
    ensures Newest(s[1..] + rest) == Newest(s + rest)
  {
    var a, b := s[1..] + rest, s + rest;
    assert |b| == |a| + 1 && |a| >= MaxHistory;
    var na, nb := a[|a| - MaxHistory..], b[|b| - MaxHistory..];
    forall k | 0 <= k < MaxHistory
      ensures na[k] == nb[k]
    {
      var j := |a| - MaxHistory + k;
      if j < |s| - 1 {
        assert a[j] == s[j + 1] == b[j + 1];
      } else {
        assert a[j] == rest[j - (|s| - 1)] == b[j + 1];
      }
    }
    assert na == nb;
  }

  /**
   * Any run of successful saves starting from a history within the bound
   * leaves exactly the newest MaxHistory hashes, oldest first.
   */
  lemma {:induction false} RotateAllKeepsNewest(history: seq<PreviousPassword>, entries: seq<PreviousPassword>)
    requires |history| <= MaxHistory
    ensures RotateAll(history, entries) == Newest(history + entries)
    decreases |entries|
  {
    if entries == [] {
      assert history + entries == history;
    } else {
      var e, more := entries[0], entries[1..];
      var pushed, rotated := history + [e], Rotate(history, e);
      calc {
        RotateAll(history, entries);
        RotateAll(rotated, more);
        { RotateAllKeepsNewest(rotated, more); }
        Newest(rotated + more);
        { if |history| >= MaxHistory {
            assert rotated == pushed[1..];
            NewestDropsFront(pushed, more);
          } }
        Newest(pushed + more);
        { assert history + entries == pushed + more; }
        Newest(history + entries);
      }
    }
  }

  /**
   * A history whose newest entry is the current hash holds a match for every
   * password that opens the account, so none of them can be set again.
   */
  lemma CurrentPasswordIsReused(eks: Eks, candidate: string, history: seq<PreviousPassword>, current: Digest)
    requires history != [] && history[|history| - 1].hash == current
    requires Matches(eks, candidate, current)
    ensures Reused(eks, candidate, history)
  {
    assert Matches(eks, candidate, history[|history| - 1].hash);
  }

  class Account {
    const id: AccountId
    var user: UserId
    var password: Secret
    /** Mongoose's `isModified("password")`. */
    var passwordModified: bool
    var status: Status
    var previousPasswords: seq<PreviousPassword>

    /**
     * The document invariant: the history is within bound, the password path
     * is dirty exactly while it holds plaintext, and a hashed password is the
     * newest entry of the history.
     */
    ghost predicate Valid()
      reads this
    {
      && |previousPasswords| <= MaxHistory
      && (passwordModified <==> password.Plain?)
      && (password.Hashed? ==>
            previousPasswords != [] && previousPasswords[|previousPasswords| - 1].hash == password.digest)
    }

    /** `new Account({user, password, status})`: not saved yet, status defaults to Active. */
    constructor (id: AccountId, user: UserId, password: string, status: Option<Status>)
      ensures Valid()
      ensures this.id == id && this.user == user
      ensures this.password == Plain(password) && passwordModified
      ensures this.status == (if status.Some? then status.value else Active)
      ensures previousPasswords == []
    {
      this.id := id;
      this.user := user;
      this.password := Plain(password);
      this.passwordModified := true;
      this.status := if status.Some? then status.value else Active;
      this.previousPasswords := [];
    }

    /** Assigning the `password` path marks it modified. */
    method SetPassword(plain: string)
      requires Valid()
      modifies this
      ensures Valid()
      ensures password == Plain(plain) && passwordModified
      ensures user == old(user) && status == old(status) && previousPasswords == old(previousPasswords)
    {
      password := Plain(plain);
      passwordModified := true;
    }

    /**
     * `save()`: schema validation (the password is required), then the
     * pre-save hook, then the dirty flag is cleared. `nonce` is the random part
     * of the salt and `now` the clock reading for `changedAt`.
     */
    method Save(eks: Eks, nonce: Nonce, now: Timestamp) returns (r: SaveResult)
      requires Valid()
      modifies this
      ensures Valid()
      ensures !old(passwordModified) ==> r == Saved && unchanged(this)
      ensures old(password) == Plain("") ==> r == SaveFailed(PasswordRequiredMessage) && unchanged(this)
      ensures old(password).Plain? && old(password).text != "" && Reused(eks, old(password).text, old(previousPasswords)) ==>
                r == SaveFailed(ReuseMessage) && unchanged(this)
      ensures old(password).Plain? && old(password).text != "" && !Reused(eks, old(password).text, old(previousPasswords)) ==>
                && r == Saved
                && password == Hashed(HashPassword(eks, old(password).text, nonce))
                && previousPasswords == Rotate(old(previousPasswords), PreviousPassword(password.digest, now))
                && !passwordModified
                && user == old(user) && status == old(status)
      ensures r.Saved? ==> !passwordModified && password.Hashed?
      ensures r.Saved? && old(passwordModified) ==> Reused(eks, old(password).text, previousPasswords)
    {
      if !passwordModified {
        return Saved;
      }
      var plain := password.text;
      if plain == "" {
        return SaveFailed(PasswordRequiredMessage);
      }
      var reused, _ := IsPasswordReused(eks, plain, previousPasswords);
      if reused {
        return SaveFailed(ReuseMessage);
      }
      var hashed := HashPassword(eks, plain, nonce);
      password := Hashed(hashed);
      previousPasswords := previousPasswords + [PreviousPassword(hashed, now)];
      if |previousPasswords| > MaxHistory {
        previousPasswords := previousPasswords[1..];
      }
      passwordModified := false;
      CurrentPasswordIsReused(eks, plain, previousPasswords, hashed);
      r := Saved;
    }

    /**
     * `comparePassword`: bcrypt's compare against the stored password. A
     * password path that still holds plaintext is not a bcrypt hash, and
     * bcrypt answers false.
     */
    function ComparePassword(eks: Eks, candidate: string): (r: bool)
      reads this
      ensures r <==> password.Hashed? && Matches(eks, candidate, password.digest)
    {
      match password
      case Plain(_) => false
      case Hashed(d) => Matches(eks, candidate, d)
    }
  }

  /**
   * Every password that `comparePassword` accepts on a valid account is in its
   * history, so the save hook would refuse it as a new password.
   */
  lemma AcceptedPasswordIsReused(account: Account, eks: Eks, candidate: string)
    requires account.Valid() && account.ComparePassword(eks, candidate)
    ensures Reused(eks, candidate, account.previousPasswords)
  {
    CurrentPasswordIsReused(eks, candidate, account.previousPasswords, account.password.digest);
  }
}
