/** Upstream account records and their upload quota (internal/app/upload_quota.go, account_state.go). */
module Accounts {
  import opened Common

  datatype Health = Normal | Limited | Disabled | Invalid

  /** The reset time of a limited account: absent, unreadable, or an instant. */
  datatype ResetMark = NoReset | Unreadable | At(time: int)

  /** Source and plan types are held lower-cased and trimmed. */
  datatype Account = Account(
    token: string, health: Health, pendingDelete: bool, reset: ResetMark,
    quota: int, quotaUnknown: bool, sourceType: string, planType: string,
    uploadQuota: int, uploadUnknown: bool, uploadReset: Option<int>, uploadFeature: Option<string>,
    success: int, fail: int, createdAt: int)

  /** availableUploadQuotaAfterReservation */
  function AvailableUploads(a: Account, reserved: int): int {
    if a.uploadUnknown then 0 else MaxInt(0, a.uploadQuota - MaxInt(0, reserved))
  }

  /** accountHasEnoughUploadQuotaAfterReservation */
  predicate EnoughUploads(a: Account, required: int, reserved: int) {
    required <= 0 || (!a.uploadUnknown && AvailableUploads(a, reserved) >= required)
  }

  /** Enough uploads means that the new reservation fits beside the ones already made. */
  lemma ReservationsFit(a: Account, required: int, reserved: int)
    requires required > 0
    ensures EnoughUploads(a, required, reserved) <==>
              !a.uploadUnknown && MaxInt(0, reserved) + required <= a.uploadQuota
  {
  }

  function IndexOf(accounts: seq<Account>, token: string): (i: nat)
    ensures i <= |accounts|
    ensures i < |accounts| ==> accounts[i].token == token
    ensures forall j :: 0 <= j < i ==> accounts[j].token != token
  {
    if accounts == [] || accounts[0].token == token then 0 else 1 + IndexOf(accounts[1..], token)
  }

  lemma FirstIndex(accounts: seq<Account>, token: string, i: nat)
    requires i <= |accounts| && (i < |accounts| ==> accounts[i].token == token)
    requires forall j :: 0 <= j < i ==> accounts[j].token != token
    ensures IndexOf(accounts, token) == i
  {
  }

  /** A record after `n` successful uploads; running out fills in the limit's default metadata. */
  function Uploaded(a: Account, n: int, defaultReset: int): Account {
    if a.uploadUnknown || a.uploadQuota <= 0 then a
    else
      var left := a.(uploadQuota := MaxInt(0, a.uploadQuota - n));
      if left.uploadQuota > 0 then left
      else
        left.(uploadReset := if a.uploadReset.None? then Some(defaultReset) else a.uploadReset,
              uploadFeature := if a.uploadFeature.None? then Some("upload") else a.uploadFeature)
  }

  function MarkUploads(accounts: seq<Account>, token: string, n: int, defaultReset: int): seq<Account> {
    var i := IndexOf(accounts, token);
    if token == "" || n <= 0 || i == |accounts| then accounts
    else accounts[i := Uploaded(accounts[i], n, defaultReset)]
  }

  class AccountStore {
    var accounts: seq<Account>

    constructor (initial: seq<Account>)
      ensures accounts == initial
    {
      accounts := initial;
    }

    method MarkAccountUploadSuccess(token: string, n: int, defaultReset: int)
      modifies this
      ensures accounts == MarkUploads(old(accounts), token, n, defaultReset)
    {
      if token == "" || n <= 0 {
        return;
      }
      for i := 0 to |accounts|
        invariant accounts == old(accounts)
        invariant forall j :: 0 <= j < i ==> accounts[j].token != token
      {
        var a := accounts[i];
        if a.token != token {
          continue;
        }
        assert i == IndexOf(accounts, token) by { FirstIndex(accounts, token, i); }
        if !a.uploadUnknown && a.uploadQuota > 0 {
          a := a.(uploadQuota := MaxInt(0, a.uploadQuota - n));
          if a.uploadQuota == 0 {
            if a.uploadReset.None? {
              a := a.(uploadReset := Some(defaultReset));
            }
            if a.uploadFeature.None? {
              a := a.(uploadFeature := Some("upload"));
            }
          }
        }
        accounts := accounts[i := a];
        return;
      }
      FirstIndex(accounts, token, |accounts|);
    }
  }
}
