/**
 Signed pagination cursors. JSON, base64 and the keyed hash are taken as injective, so a cursor text is
 either malformed or a payload with a signature, and a signature determines its key and payload.
 */
module Cursors {
  import opened Wrappers
  import opened Clocks

  datatype Payload = Payload(version: int, workspace: string, resultSet: string, next: nat, expires: int)

  datatype Signature = Signature(key: string, payload: Payload)

  datatype Cursor = Malformed(text: string) | Signed(payload: Payload, signature: Signature)

  datatype Fault = Invalid | Expired

  /** Times are in nanoseconds; a cursor keeps whole seconds. */
  function Encode(key: string, workspace: string, resultSet: string, next: nat, expires: int): Result<Cursor, Fault> {
    if workspace == "" || resultSet == "" || expires == ZERO_TIME then Err(Invalid)
    else
      var payload := Payload(1, workspace, resultSet, next, expires / SECOND);
      Ok(Signed(payload, Signature(key, payload)))
  }

  function Decode(key: string, c: Cursor, workspace: string, now: int): Result<Payload, Fault> {
    if c.Malformed? || c.signature != Signature(key, c.payload) then Err(Invalid)
    else if c.payload.version != 1 || c.payload.workspace == "" || c.payload.resultSet == "" then Err(Invalid)
    else if workspace != "" && c.payload.workspace != workspace then Err(Invalid)
    else if now >= c.payload.expires * SECOND then Err(Expired)
    else Ok(c.payload)
  }

  /** A cursor decodes to what was encoded exactly until the last whole second before it expires. */
  lemma RoundTrip(key: string, workspace: string, resultSet: string, next: nat, expires: int, now: int)
    requires Encode(key, workspace, resultSet, next, expires).Ok?
    ensures var r := Decode(key, Encode(key, workspace, resultSet, next, expires).value, workspace, now);
      r == if now < expires - expires % SECOND then Ok(Payload(1, workspace, resultSet, next, expires / SECOND))
             else Err(Expired)
  {
    assert expires == (expires / SECOND) * SECOND + expires % SECOND;
  }

  /** Only cursors this codec encoded are accepted: one with the same key and fields exists. */
  lemma Authentic(key: string, c: Cursor, workspace: string, now: int)
    requires Decode(key, c, workspace, now).Ok? && c.payload.expires * SECOND != ZERO_TIME
    ensures var p := Decode(key, c, workspace, now).value;
      p.next >= 0 && Encode(key, p.workspace, p.resultSet, p.next, p.expires * SECOND) == Ok(c)
  {
  }

  /** Re-encoding a decoded cursor for a later page keeps its expiry. */
  lemma ExpiryKept(key: string, workspace: string, resultSet: string, next: nat, later: nat, expires: int)
    requires Encode(key, workspace, resultSet, next, expires).Ok? && (expires / SECOND) * SECOND != ZERO_TIME
    ensures Encode(key, workspace, resultSet, later, (expires / SECOND) * SECOND)
        == Encode(key, workspace, resultSet, later, expires)
  {
  }

  /**
   A cursor is accepted exactly when this codec encoded it with the same key, for this workspace if one is
   demanded, and the last whole second before its expiry is not over.
   */
  lemma AcceptedExactly(key: string, c: Cursor, workspace: string, now: int)
    ensures Decode(key, c, workspace, now).Ok? <==>
            exists owner, resultSet, next: nat, expires ::
              EncodedAs(key, owner, resultSet, next, expires, c) && (workspace == "" || owner == workspace)
              && now < expires - expires % 1_000_000_000
  {
    if Decode(key, c, workspace, now).Ok? {
      var p := c.payload;
      var expires := if p.expires * SECOND == ZERO_TIME then p.expires * SECOND + 1 else p.expires * SECOND;
      assert EncodedAs(key, p.workspace, p.resultSet, p.next, expires, c);
    }
    if owner, resultSet, next: nat, expires :|
         EncodedAs(key, owner, resultSet, next, expires, c) && (workspace == "" || owner == workspace)
         && now < expires - expires % 1_000_000_000 {
      RoundTrip(key, owner, resultSet, next, expires, now);
    }
  }

  predicate EncodedAs(key: string, owner: string, resultSet: string, next: nat, expires: int, c: Cursor) {
    Encode(key, owner, resultSet, next, expires) == Ok(c)
  }
}
