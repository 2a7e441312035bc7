/** One database: the singleton configuration row and the table of consumed nonces. */
module Store {
  import opened Basics
  import opened Config

  type Digest = seq<int>

  /** A database that a database URL may lead to. */
  type DbId = nat

  // ---------------------------------------------------------------- configuration row

  /** Which of an import's database accesses succeed; a failed access aborts before writing. */
  datatype Io = Io(readOk: bool, writeOk: bool, readBackOk: bool)

  datatype Imported = Imported(row: Row, effective: Option<Config>)

  /** Takes over the host's settings, as long as the stored ones are still the defaults. */
  function Import(ck: Checks, row: Row, legacy: Config, io: Io): Imported {
    var current := Decode(row);
    var wanted := legacy.(databaseURL := "");
    if !io.readOk || current.None? then Imported(row, None)
    else if current.value != DEFAULT || wanted == current.value then Imported(row, current)
    else if ValidateConfig(ck, wanted).Some? || !io.writeOk then Imported(row, None)
    else if !io.readBackOk then Imported(Encode(wanted), None)
    else Imported(Encode(wanted), Decode(Encode(wanted)))
  }

  // ---------------------------------------------------------------- consumed nonces

  datatype Consumed = Fresh | Replay | EmptyNonce | DbError

  /** The rows that outlive a prune at `now`. */
  function Unexpired(rows: map<Digest, int>, now: int): map<Digest, int> {
    map h | h in rows && !(rows[h] < now) :: rows[h]
  }

  /** Prune (best effort), then insert unless the hash is already there. */
  function Consume(rows: map<Digest, int>, h: Digest, expiresAt: int, now: int, pruneOk: bool, insertOk: bool)
    : (map<Digest, int>, Consumed)
  {
    var kept := if pruneOk then Unexpired(rows, now) else rows;
    if !insertOk then (kept, DbError)
    else if h in kept then (kept, Replay)
    else (kept[h := expiresAt], Fresh)
  }

  /** The row of h blocks an insertion: it is there and not pruned away first. */
  predicate Blocked(rows: map<Digest, int>, h: Digest, now: int, pruneOk: bool) {
    h in rows && (pruneOk ==> rows[h] >= now)
  }

  /** A nonce is fresh exactly when no row blocks it; expired rows go, and its own comes, as the database lets them. */
  lemma ConsumeIff(rows: map<Digest, int>, h: Digest, expiresAt: int, now: int, pruneOk: bool, insertOk: bool)
    ensures var (after, c) := Consume(rows, h, expiresAt, now, pruneOk, insertOk);
            && (c == Fresh <==> insertOk && !Blocked(rows, h, now, pruneOk))
            && (c == Replay <==> insertOk && Blocked(rows, h, now, pruneOk))
            && (c == DbError <==> !insertOk)
            && (forall k :: k in after <==> Blocked(rows, k, now, pruneOk) || (c == Fresh && k == h))
            && (forall k :: k in after ==> after[k] == if c == Fresh && k == h then expiresAt else rows[k])
  {
  }

  class Store {
    const hash: string -> Digest
    var row: Option<Row>
    var nonces: map<Digest, int>

    constructor (hash: string -> Digest)
      ensures this.hash == hash && row == None && nonces == map[]
    {
      this.hash := hash;
      row, nonces := None, map[];
    }

    method Migrate()
      modifies this`row
      ensures row == Some(old(row).GetOr(map[]))
    {
      if row.None? {
        row := Some(map[]);
      }
    }

    method GetConfig(readOk: bool) returns (r: Option<Config>)
      modifies this`row
      ensures !readOk ==> r == None && row == old(row)
      ensures readOk ==> row == Some(old(row).GetOr(map[])) && r == Decode(row.value)
    {
      if !readOk {
        return None;
      }
      if row.None? {
        row := Some(map[]);
      }
      r := Decode(row.value);
    }

    method UpdateConfig(ck: Checks, cfg: Config, writeOk: bool) returns (ok: bool)
      modifies this`row
      ensures ok <==> WellFormed(ck, cfg) && writeOk
      ensures ok ==> row.Some? && Decode(row.value) == Some(cfg) && row.value == Encode(cfg)
      ensures !ok ==> row == old(row)
    {
      ValidateConfigIff(ck, cfg);
      StoredRoundTrip(cfg);
      if ValidateConfig(ck, cfg).Some? || !writeOk {
        return false;
      }
      row := Some(Encode(cfg));
      return true;
    }

    method ImportLegacyConfig(ck: Checks, legacy: Config, io: Io) returns (r: Option<Config>)
      modifies this`row
      ensures Imported(row.GetOr(map[]), r) == Import(ck, old(row).GetOr(map[]), legacy, io)
      ensures row.None? <==> old(row).None? && !io.readOk
    {
      hide Decode, Encode;
      var current := GetConfig(io.readOk);
      if current.None? {
        return None;
      }
      if current.value != DEFAULT {
        return current;
      }
      var wanted := legacy.(databaseURL := "");
      if wanted == current.value {
        return current;
      }
      ValidateConfigIff(ck, wanted);
      var ok := UpdateConfig(ck, wanted, io.writeOk);
      if !ok {
        return None;
      }
      r := GetConfig(io.readBackOk);
    }

    method ConsumeNonce(nonce: string, expiresAt: int, now: int, pruneOk: bool, insertOk: bool)
      returns (r: Consumed)
      modifies this`nonces
      ensures nonce == "" ==> r == EmptyNonce && nonces == old(nonces)
      ensures nonce != "" ==> (nonces, r) == Consume(old(nonces), hash(nonce), expiresAt, now, pruneOk, insertOk)
    {
      if nonce == "" {
        return EmptyNonce;
      }
      var h := hash(nonce);
      if pruneOk {
        nonces := Unexpired(nonces, now);
      }
      if !insertOk {
        return DbError;
      }
      if h in nonces {
        return Replay;
      }
      nonces := nonces[h := expiresAt];
      return Fresh;
    }
  }
}
