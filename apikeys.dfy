/**
 * The `api_keys` table as the dashboard's data hook uses it: the key listing
 * (`fetchApiKeys`), the soft delete that only marks a key revoked
 * (`deleteApiKey`), and the insert of a new key (`createApiKey`).
 */
module ApiKeys {
  import opened Wrappers
  import opened Seqs
  import opened Sorting

  /**
   * A row of `api_keys`. Timestamps are positions on the time line; the key
   * prefix and hash are whatever the caller generated.
   */
  datatype ApiKey = ApiKey(
    id: string,
    userId: string,
    name: string,
    keyPrefix: string,
    keyHash: string,
    revoked: bool,
    expiresAt: Option<int>,
    lastUsedAt: Option<int>,
    createdAt: int)

  function CreatedAt(k: ApiKey): int
  {
    k.createdAt
  }

  /** The row test of `.eq('user_id', user).eq('revoked', false)`. */
  function Live(user: string): ApiKey -> bool
  {
    (k: ApiKey) => k.userId == user && !k.revoked
  }

  /** The listing query: the user's keys that are not revoked, newest first. */
  function ListKeys(table: seq<ApiKey>, user: string): (r: seq<ApiKey>)
    ensures multiset(r) == multiset(Filter(table, Live(user)))
    ensures SortedDesc(r, CreatedAt)
  {
    SortDesc(Filter(table, Live(user)), CreatedAt)
  }

  /** A key is listed exactly when it is a row of the table, owned by the user and not revoked. */
  lemma ListKeysMember(table: seq<ApiKey>, user: string, k: ApiKey)
    ensures k in ListKeys(table, user) <==> k in table && k.userId == user && !k.revoked
  {
    var r := ListKeys(table, user);
    assert k in r <==> k in multiset(r);
    FilterMember(table, Live(user), k);
  }

  /** `fetchApiKeys`: nothing happens without a signed-in user; otherwise the new listing. */
  function FetchApiKeys(table: seq<ApiKey>, user: Option<string>): (r: Option<seq<ApiKey>>)
    ensures r.None? <==> user.None?
    ensures user.Some? ==> r == Some(ListKeys(table, user.value))
  {
    match user
    case None => None
    case Some(u) => Some(ListKeys(table, u))
  }

  /**
   * The row test of `.eq('id', keyId).eq('user_id', user?.id)`. Without a
   * signed-in user the filter compares with an absent id and matches no row.
   */
  predicate Targets(k: ApiKey, keyId: string, user: Option<string>)
  {
    k.id == keyId && user == Some(k.userId)
  }

  /** `.update({ revoked: true })` on the rows the filter selects. */
  function Revoke(table: seq<ApiKey>, keyId: string, user: Option<string>): (r: seq<ApiKey>)
    ensures |r| == |table|
    ensures forall i :: 0 <= i < |table| ==> r[i].(revoked := table[i].revoked) == table[i]
    ensures forall i :: 0 <= i < |table| ==> (r[i].revoked <==> table[i].revoked || Targets(table[i], keyId, user))
  {
    Map(table, (k: ApiKey) => if Targets(k, keyId, user) then k.(revoked := true) else k)
  }

  /** Revoking twice is revoking once. */
  lemma RevokeIdempotent(table: seq<ApiKey>, keyId: string, user: Option<string>)
    ensures Revoke(Revoke(table, keyId, user), keyId, user) == Revoke(table, keyId, user)
  {
    var once := Revoke(table, keyId, user);
    var twice := Revoke(once, keyId, user);
    forall i | 0 <= i < |table| ensures twice[i] == once[i] {
      assert twice[i].(revoked := once[i].revoked) == once[i];
    }
  }

  /** Without a signed-in user the update changes no row. */
  lemma RevokeWithoutUser(table: seq<ApiKey>, keyId: string)
    ensures Revoke(table, keyId, None) == table
  {
    var r := Revoke(table, keyId, None);
    forall i | 0 <= i < |table| ensures r[i] == table[i] {
      assert r[i].(revoked := table[i].revoked) == table[i];
    }
  }

  /**
   * After the soft delete the user's listing holds exactly the keys it held
   * before, except the one with the deleted id.
   */
  lemma ListAfterRevoke(table: seq<ApiKey>, keyId: string, user: string, k: ApiKey)
    ensures k in ListKeys(Revoke(table, keyId, Some(user)), user) <==> k in ListKeys(table, user) && k.id != keyId
  {
    var after := Revoke(table, keyId, Some(user));
    ListKeysMember(after, user, k);
    ListKeysMember(table, user, k);
    if k in after && k.userId == user && !k.revoked {
      var i :| 0 <= i < |after| && after[i] == k;
      assert after[i].(revoked := table[i].revoked) == table[i];
    }
    if k in table && k.userId == user && !k.revoked && k.id != keyId {
      var i :| 0 <= i < |table| && table[i] == k;
      assert after[i].(revoked := table[i].revoked) == table[i];
    }
  }

  /** The deleted key is not listed afterwards; every listed key is a live key of the user. */
  lemma RevokedKeyNotListed(table: seq<ApiKey>, keyId: string, user: string)
    ensures var listing := ListKeys(Revoke(table, keyId, Some(user)), user);
      forall i :: 0 <= i < |listing| ==> listing[i].id != keyId && listing[i].userId == user && !listing[i].revoked
  {
    var listing := ListKeys(Revoke(table, keyId, Some(user)), user);
    forall i | 0 <= i < |listing| ensures listing[i].id != keyId && listing[i].userId == user && !listing[i].revoked {
      ListAfterRevoke(table, keyId, user, listing[i]);
      ListKeysMember(table, user, listing[i]);
    }
  }

  /** Another user's delete leaves this user's listing as it was, order included. */
  lemma RevokeOtherUserUnaffected(table: seq<ApiKey>, keyId: string, user: string, other: string)
    requires other != user
    ensures ListKeys(Revoke(table, keyId, Some(other)), user) == ListKeys(table, user)
  {
    var after := Revoke(table, keyId, Some(other));
    forall i | 0 <= i < |table|
      ensures Live(user)(after[i]) == Live(user)(table[i]) && (Live(user)(after[i]) ==> after[i] == table[i])
    {
      assert after[i].(revoked := table[i].revoked) == table[i];
    }
    FilterAgree(after, table, Live(user));
  }

  /** `deleteApiKey`: the table after the update, and the listing it then fetches. */
  function DeleteApiKey(table: seq<ApiKey>, keyId: string, user: Option<string>): (r: (seq<ApiKey>, Option<seq<ApiKey>>))
    ensures r.0 == Revoke(table, keyId, user)
    ensures r.1 == FetchApiKeys(r.0, user)
    ensures |r.0| == |table|
    ensures r.1.Some? <==> user.Some?
    ensures user.Some? ==> forall i :: 0 <= i < |r.1.value| ==>
      r.1.value[i].id != keyId && r.1.value[i].userId == user.value && !r.1.value[i].revoked
  {
    var after := Revoke(table, keyId, user);
    if user.Some? then
      RevokedKeyNotListed(table, keyId, user.value);
      (after, Some(ListKeys(after, user.value)))
    else
      (after, None)
  }

  /**
   * The listing `deleteApiKey` refreshes is the user's listing from before
   * the delete minus the deleted key, still newest first.
   */
  lemma DeleteRefreshesListing(table: seq<ApiKey>, keyId: string, user: string, k: ApiKey)
    ensures var listing := DeleteApiKey(table, keyId, Some(user)).1;
      listing.Some? && SortedDesc(listing.value, CreatedAt)
      && (k in listing.value <==> k in ListKeys(table, user) && k.id != keyId)
  {
    ListAfterRevoke(table, keyId, user, k);
  }

  /** The row `createApiKey` inserts: the signed-in user's key, not revoked and never used. */
  function NewKey(id: string, user: string, name: string, keyPrefix: string, keyHash: string, now: int): (k: ApiKey)
    ensures k.userId == user && k.name == name && k.keyPrefix == keyPrefix && k.keyHash == keyHash
    ensures !k.revoked && k.expiresAt.None? && k.lastUsedAt.None?
    ensures Live(user)(k)
  {
    ApiKey(id, user, name, keyPrefix, keyHash, false, None, None, now)
  }

  /**
   * `createApiKey`: nothing without a signed-in user; otherwise the table with
   * the new row, and the inserted row. The store picks `id` and `now`.
   */
  function CreateApiKey(table: seq<ApiKey>, user: Option<string>, name: string, keyPrefix: string, keyHash: string,
                        id: string, now: int): (r: Option<(seq<ApiKey>, ApiKey)>)
    ensures r.None? <==> user.None?
    ensures r.Some? ==> r.value.0 == table + [r.value.1]
    ensures r.Some? ==> var k := r.value.1;
      k.userId == user.value && k.name == name && k.keyPrefix == keyPrefix && k.keyHash == keyHash && !k.revoked
  {
    match user
    case None => None
    case Some(u) =>
      var k := NewKey(id, u, name, keyPrefix, keyHash, now);
      Some((table + [k], k))
  }

  /** A newly created key shows up in its owner's listing. */
  lemma CreatedKeyListed(table: seq<ApiKey>, user: string, name: string, keyPrefix: string, keyHash: string,
                         id: string, now: int)
    ensures var r := CreateApiKey(table, Some(user), name, keyPrefix, keyHash, id, now);
      r.Some? && r.value.1 in ListKeys(r.value.0, user)
  {
    var r := CreateApiKey(table, Some(user), name, keyPrefix, keyHash, id, now);
    ListKeysMember(r.value.0, user, r.value.1);
    assert r.value.0[|table|] == r.value.1;
  }
}
