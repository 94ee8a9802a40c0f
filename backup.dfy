/** Backup and restore of the browser's key-value storage: the export
    envelope with redacted passwords, the import that restores array values
    from a parsed backup, clearing the application's keys, and the size and
    count statistics. Storage holds parsed JSON values; the text form, the
    file reading and the download are not modelled. */
module Backup {
  import opened Seqs
  import Clock

  const USERS_KEY := "lf_users"
  const ITEMS_KEY := "lf_items"
  const CLAIMS_KEY := "lf_claims"
  const REVIEWS_KEY := "lf_reviews"
  const SESSION_KEY := "lf_session"
  const BACKUP_KEYS := [USERS_KEY, ITEMS_KEY, CLAIMS_KEY, REVIEWS_KEY, SESSION_KEY]
  const BACKUP_KEY_SET := set k | k in BACKUP_KEYS

  const VERSION := "1.0"
  const PASSWORD := "password"
  const REDACTED := "[REDACTED]"

  /** A parsed JSON value. Object members keep their order; numbers are
      whole numbers here. */
  datatype Json =
    | JNull
    | JBool(b: bool)
    | JNum(n: int)
    | JStr(s: string)
    | JArr(elems: seq<Json>)
    | JObj(fields: seq<Field>)

  datatype Field = Field(key: string, value: Json)

  /** JavaScript truthiness of a JSON value. */
  predicate Truthy(v: Json) {
    match v
    case JNull => false
    case JBool(b) => b
    case JNum(n) => n != 0
    case JStr(s) => s != ""
    case JArr(_) => true
    case JObj(_) => true
  }

  /** The value of the first member with the key, if any. */
  function Lookup(fs: seq<Field>, k: string): (r: Option<Json>)
    ensures r.None? <==> forall i :: 0 <= i < |fs| ==> fs[i].key != k
    ensures r.Some? ==> Field(k, r.value) in fs
  {
    if fs == [] then None
    else if fs[0].key == k then Some(fs[0].value)
    else
      var r := Lookup(fs[1..], k);
      assert r.Some? ==> Field(k, r.value) in fs[1..];
      r
  }

  /** `obj.key`: a member of an object, undefined for anything else. */
  function Get(v: Json, k: string): Option<Json> {
    if v.JObj? then Lookup(v.fields, k) else None
  }

  /** `loadJSON(key, fallback)`: the stored value, or the fallback when the
      key is absent. */
  function LoadFrom(m: map<string, Json>, k: string, fallback: Json): (v: Json)
    ensures k in m ==> v == m[k]
    ensures k !in m ==> v == fallback
  {
    if k in m then m[k] else fallback
  }

  // ----- Export -----

  /** `{ ...user, password: '[REDACTED]' }`: an existing password member
      keeps its place and takes the new value; otherwise one is appended. */
  function WithRedactedPassword(fs: seq<Field>): seq<Field> {
    if Lookup(fs, PASSWORD).Some? then
      Map(fs, (f: Field) => if f.key == PASSWORD then Field(PASSWORD, JStr(REDACTED)) else f)
    else fs + [Field(PASSWORD, JStr(REDACTED))]
  }

  /** One exported user. Spreading anything but an object contributes no
      member here. */
  function RedactUser(u: Json): Json {
    if u.JObj? then JObj(WithRedactedPassword(u.fields)) else JObj([Field(PASSWORD, JStr(REDACTED))])
  }

  /** The users list with every password replaced. A value that is not a
      list is left as it is. */
  function RedactUsers(v: Json): Json {
    if v.JArr? then JArr(Map(v.elems, RedactUser)) else v
  }

  /** Every member the redaction keeps is unchanged, and the password reads
      "[REDACTED]". */
  lemma {:induction false} RedactionKeepsOtherFields(fs: seq<Field>, k: string)
    ensures Lookup(WithRedactedPassword(fs), PASSWORD) == Some(JStr(REDACTED))
    ensures k != PASSWORD ==> Lookup(WithRedactedPassword(fs), k) == Lookup(fs, k)
  {
    if Lookup(fs, PASSWORD).Some? {
      ReplacedLookup(fs, k);
    } else {
      AppendedLookup(fs, Field(PASSWORD, JStr(REDACTED)), PASSWORD);
      AppendedLookup(fs, Field(PASSWORD, JStr(REDACTED)), k);
    }
  }

  lemma {:induction false} ReplacedLookup(fs: seq<Field>, k: string)
    requires Lookup(fs, PASSWORD).Some?
    ensures var r := Map(fs, (f: Field) => if f.key == PASSWORD then Field(PASSWORD, JStr(REDACTED)) else f);
            && Lookup(r, PASSWORD) == Some(JStr(REDACTED))
            && (k != PASSWORD ==> Lookup(r, k) == Lookup(fs, k))
  {
    var r := Map(fs, (f: Field) => if f.key == PASSWORD then Field(PASSWORD, JStr(REDACTED)) else f);
    if fs[0].key != PASSWORD {
      ReplacedLookup(fs[1..], k);
      assert r[1..] == Map(fs[1..], (f: Field) => if f.key == PASSWORD then Field(PASSWORD, JStr(REDACTED)) else f);
    } else if k != PASSWORD && fs[0].key != k {
      ReplacedPasswordLookup(fs[1..], k);
      assert r[1..] == Map(fs[1..], (f: Field) => if f.key == PASSWORD then Field(PASSWORD, JStr(REDACTED)) else f);
    }
  }

  /** Replacing the password members leaves every other key's lookup alone. */
  lemma {:induction false} ReplacedPasswordLookup(fs: seq<Field>, k: string)
    requires k != PASSWORD
    ensures Lookup(Map(fs, (f: Field) => if f.key == PASSWORD then Field(PASSWORD, JStr(REDACTED)) else f), k) == Lookup(fs, k)
  {
    if fs != [] {
      var r := Map(fs, (f: Field) => if f.key == PASSWORD then Field(PASSWORD, JStr(REDACTED)) else f);
      ReplacedPasswordLookup(fs[1..], k);
      assert r[1..] == Map(fs[1..], (f: Field) => if f.key == PASSWORD then Field(PASSWORD, JStr(REDACTED)) else f);
    }
  }

  /** Appending a member changes the lookup only of a key not already
      present. */
  lemma {:induction false} AppendedLookup(fs: seq<Field>, f: Field, k: string)
    ensures Lookup(fs + [f], k) == if Lookup(fs, k).Some? then Lookup(fs, k) else if f.key == k then Some(f.value) else None
  {
    if fs != [] {
      assert (fs + [f])[1..] == fs[1..] + [f];
      AppendedLookup(fs[1..], f, k);
    }
  }

  /** Every exported user has the password "[REDACTED]" and keeps every
      other member. */
  lemma {:induction false} ExportedUsersRedacted(users: seq<Json>, i: nat, k: string)
    requires i < |users|
    ensures var u := RedactUsers(JArr(users)).elems[i];
            && Get(u, PASSWORD) == Some(JStr(REDACTED))
            && (users[i].JObj? && k != PASSWORD ==> Get(u, k) == Get(users[i], k))
  {
    if users[i].JObj? {
      RedactionKeepsOtherFields(users[i].fields, k);
    }
  }

  function LoadField(m: map<string, Json>, k: string): Field {
    Field(k, LoadFrom(m, k, JArr([])))
  }

  /** The data part of the envelope: the five keys in order, each loaded
      with [] as fallback, the users redacted. */
  function DataFields(m: map<string, Json>): (fs: seq<Field>)
    ensures |fs| == 5
    ensures forall i :: 0 <= i < 5 ==> fs[i].key == BACKUP_KEYS[i]
    ensures fs[0].value == RedactUsers(LoadFrom(m, USERS_KEY, JArr([])))
    ensures forall i :: 1 <= i < 5 ==> fs[i].value == LoadFrom(m, BACKUP_KEYS[i], JArr([]))
  {
    var loaded := Map(BACKUP_KEYS, (k: string) => LoadField(m, k));
    loaded[0 := Field(USERS_KEY, RedactUsers(loaded[0].value))]
  }

  /** The export envelope. */
  function Export(m: map<string, Json>, exportedAt: string): Json {
    JObj([Field("version", JStr(VERSION)), Field("exportedAt", JStr(exportedAt)), Field("data", JObj(DataFields(m)))])
  }

  /** The envelope carries version "1.0", the export time and the data
      object. */
  lemma ExportEnvelope(m: map<string, Json>, exportedAt: string)
    ensures Get(Export(m, exportedAt), "version") == Some(JStr(VERSION))
    ensures Get(Export(m, exportedAt), "exportedAt") == Some(JStr(exportedAt))
    ensures Get(Export(m, exportedAt), "data") == Some(JObj(DataFields(m)))
  {
    var fs := Export(m, exportedAt).fields;
    assert "version"[0] != "exportedAt"[0] && "version"[0] != "data"[0] && "exportedAt"[0] != "data"[0];
    LookupAt(fs, 1, "exportedAt");
    LookupAt(fs, 2, "data");
  }

  /** The data object holds exactly the five keys. */
  lemma {:induction false} DataKeys(m: map<string, Json>, k: string)
    ensures Lookup(DataFields(m), k).Some? <==> k in BACKUP_KEYS
  {
    var fs := DataFields(m);
    if k in BACKUP_KEYS {
      var i :| 0 <= i < 5 && BACKUP_KEYS[i] == k;
      assert fs[i].key == k;
    }
  }

  /** Under each key the data object holds the stored value, or [] when
      the key is absent; the users are redacted. */
  lemma {:induction false} DataValues(m: map<string, Json>)
    ensures Lookup(DataFields(m), USERS_KEY) == Some(RedactUsers(LoadFrom(m, USERS_KEY, JArr([]))))
    ensures forall i :: 1 <= i < 5 ==> Lookup(DataFields(m), BACKUP_KEYS[i]) == Some(LoadFrom(m, BACKUP_KEYS[i], JArr([])))
  {
    var fs := DataFields(m);
    DistinctBackupKeys();
    forall i | 0 <= i < 5 ensures Lookup(fs, BACKUP_KEYS[i]) == Some(fs[i].value) {
      LookupDistinct(fs, i);
    }
  }

  /** The five keys are pairwise different. */
  lemma DistinctBackupKeys()
    ensures NoDuplicates(BACKUP_KEYS)
  {
    forall i, j | 0 <= i < j < 5 ensures BACKUP_KEYS[i] != BACKUP_KEYS[j] {
      assert BACKUP_KEYS[i][3] != BACKUP_KEYS[j][3] || BACKUP_KEYS[i][4] != BACKUP_KEYS[j][4];
    }
  }

  /** Members with the backup keys in order: the lookup of each key finds
      its own member. */
  lemma {:induction false} LookupDistinct(fs: seq<Field>, i: nat)
    requires |fs| == 5 && i < 5 && forall j :: 0 <= j < 5 ==> fs[j].key == BACKUP_KEYS[j]
    requires NoDuplicates(BACKUP_KEYS)
    ensures Lookup(fs, BACKUP_KEYS[i]) == Some(fs[i].value)
  {
    var k := BACKUP_KEYS[i];
    LookupAt(fs, i, k);
  }

  lemma {:induction false} LookupAt(fs: seq<Field>, i: nat, k: string)
    requires i < |fs| && fs[i].key == k && forall j :: 0 <= j < i ==> fs[j].key != k
    ensures Lookup(fs, k) == Some(fs[i].value)
  {
    if i > 0 {
      LookupAt(fs[1..], i - 1, k);
    }
  }

  // ----- Import -----

  /** The fields `Object.entries` lists for the data part: an object's
      members, a list's or a string's positions, nothing for the rest. */
  function EntriesOf(data: Json): seq<Field> {
    match data
    case JObj(fs) => fs
    case JArr(es) => seq(|es|, (i: int) requires 0 <= i < |es| => Field(Clock.Decimal(i), es[i]))
    case JStr(s) => seq(|s|, (i: int) requires 0 <= i < |s| => Field(Clock.Decimal(i), JStr([s[i]])))
    case _ => []
  }

  /** A backup is accepted when it is an object with a truthy version and
      truthy data. */
  predicate Accepted(backup: Json) {
    && backup.JObj?
    && Get(backup, "version").Some? && Truthy(Get(backup, "version").value)
    && Get(backup, "data").Some? && Truthy(Get(backup, "data").value)
  }

  /** One entry of the restore: saved when its key is not the session and
      its value is a list. */
  function Restore1(m: map<string, Json>, f: Field): map<string, Json> {
    if f.key != SESSION_KEY && f.value.JArr? then m[f.key := f.value] else m
  }

  /** The storage after restoring the entries in order. */
  function Restore(m: map<string, Json>, fs: seq<Field>): map<string, Json> {
    if fs == [] then m else Restore1(Restore(m, fs[..|fs| - 1]), fs[|fs| - 1])
  }

  /** The session key is never restored. */
  lemma {:induction false} RestoreKeepsSession(m: map<string, Json>, fs: seq<Field>)
    ensures SESSION_KEY in Restore(m, fs) <==> SESSION_KEY in m
    ensures SESSION_KEY in m ==> Restore(m, fs)[SESSION_KEY] == m[SESSION_KEY]
  {
    if fs != [] {
      RestoreKeepsSession(m, fs[..|fs| - 1]);
    }
  }

  /** A key no entry brings a list for keeps its stored value, or stays
      absent. */
  lemma {:induction false} RestoreKeepsOthers(m: map<string, Json>, fs: seq<Field>, k: string)
    requires forall i :: 0 <= i < |fs| && fs[i].key == k ==> !fs[i].value.JArr?
    ensures k in Restore(m, fs) <==> k in m
    ensures k in m ==> Restore(m, fs)[k] == m[k]
  {
    if fs != [] {
      RestoreKeepsOthers(m, fs[..|fs| - 1], k);
    }
  }

  /** The last entry for a key other than the session, when it holds a
      list, is what the key holds afterwards. */
  lemma {:induction false} RestoreLastWins(m: map<string, Json>, fs: seq<Field>, i: nat)
    requires i < |fs| && fs[i].key != SESSION_KEY && fs[i].value.JArr?
    requires forall j :: i < j < |fs| ==> fs[j].key != fs[i].key
    ensures fs[i].key in Restore(m, fs) && Restore(m, fs)[fs[i].key] == fs[i].value
  {
    if i < |fs| - 1 {
      RestoreLastWins(m, fs[..|fs| - 1], i);
    }
  }

  datatype ImportResult = Imported(backup: Json) | NotJson | InvalidFormat

  /** The key holds the exported list after the restore, when the
      exporting storage held a list there. */
  predicate Restored(r: map<string, Json>, m: map<string, Json>, k: string) {
    LoadFrom(m, k, JArr([])).JArr? ==> k in r && r[k] == LoadFrom(m, k, JArr([]))
  }

  /** A key outside the five keeps its value, or stays absent. */
  predicate Untouched(r: map<string, Json>, target: map<string, Json>, k: string) {
    (k in r <==> k in target) && (k in target ==> r[k] == target[k])
  }

  /** Restoring the exported data puts each list the exporting storage
      held under one of the first four keys back under that key. */
  lemma {:induction false} RestoredAt(m: map<string, Json>, target: map<string, Json>, i: nat)
    requires i < 4
    ensures var fs := DataFields(m);
            fs[i].value.JArr? ==> BACKUP_KEYS[i] in Restore(target, fs) && Restore(target, fs)[BACKUP_KEYS[i]] == fs[i].value
  {
    var fs := DataFields(m);
    DistinctBackupKeys();
    if fs[i].value.JArr? {
      RestoreLastWins(target, fs, i);
    }
  }

  /** A backup that passes the check restores, on any storage, the stored
      items, claims and reviews of the exporting storage when those were
      lists, the users with redacted passwords, and leaves the session and
      every key outside the five as they were. */
  lemma {:induction false} ImportOfExport(m: map<string, Json>, target: map<string, Json>, exportedAt: string)
    ensures Accepted(Export(m, exportedAt))
    ensures var r := Restore(target, EntriesOf(Get(Export(m, exportedAt), "data").value));
            && Restored(r, m, ITEMS_KEY) && Restored(r, m, CLAIMS_KEY) && Restored(r, m, REVIEWS_KEY)
            && (LoadFrom(m, USERS_KEY, JArr([])).JArr? ==> USERS_KEY in r && r[USERS_KEY] == RedactUsers(LoadFrom(m, USERS_KEY, JArr([]))))
            && Untouched(r, target, SESSION_KEY)
            && forall k :: k !in BACKUP_KEYS ==> Untouched(r, target, k)
  {
    ExportEnvelope(m, exportedAt);
    var fs := DataFields(m);
    var r := Restore(target, fs);
    RestoredAt(m, target, 0);
    RestoredAt(m, target, 1);
    RestoredAt(m, target, 2);
    RestoredAt(m, target, 3);
    RestoreKeepsSession(target, fs);
    forall k | k !in BACKUP_KEYS ensures Untouched(r, target, k) {
      RestoreKeepsOthers(target, fs, k);
    }
  }

  // ----- Statistics -----

  /** The size of a stored value's text and its `.length || 0`. */
  datatype KeyStat = KeyStat(size: nat, items: nat)

  /** `JSON.parse(data).length || 0` as evidently intended: a list's or a
      string's length, 0 for everything else, null included. */
  function ItemCount(v: Json): (n: nat)
    ensures v.JArr? ==> n == |v.elems|
    ensures v.JStr? ==> n == |v.s|
    ensures !v.JArr? && !v.JStr? ==> n == 0
  {
    match v
    case JArr(es) => |es|
    case JStr(s) => |s|
    case _ => 0
  }

  /** The count as written: reading `.length` of a stored null throws. */
  function ItemCountAsWritten(v: Json): Option<nat> {
    if v.JNull? then None else Some(ItemCount(v))
  }

  /** A key's statistics; an absent key counts 0 bytes and 0 entries. */
  function StatOf(m: map<string, Json>, k: string, size: Json -> nat): (s: KeyStat)
    ensures k !in m ==> s == KeyStat(0, 0)
    ensures k in m ==> s == KeyStat(size(m[k]), ItemCount(m[k]))
  {
    if k in m then KeyStat(size(m[k]), ItemCount(m[k])) else KeyStat(0, 0)
  }

  /** A key's statistics as written: no result when the key holds null. */
  function StatOfAsWritten(m: map<string, Json>, k: string, size: Json -> nat): Option<KeyStat> {
    if k !in m then Some(KeyStat(0, 0))
    else
      var n := ItemCountAsWritten(m[k]);
      if n.None? then None else Some(KeyStat(size(m[k]), n.value))
  }

  /** A signed-out session is stored as null, and the statistics as
      written fail on it; the corrected statistics count it as 0 entries. */
  lemma NullSessionBreaksStats(m: map<string, Json>, size: Json -> nat)
    requires SESSION_KEY in m && m[SESSION_KEY] == JNull
    ensures StatOfAsWritten(m, SESSION_KEY, size).None?
    ensures StatOf(m, SESSION_KEY, size).items == 0
  {
  }

  /** Everywhere else the statistics as written agree with the corrected
      ones. */
  lemma StatsAgreeOffNull(m: map<string, Json>, k: string, size: Json -> nat)
    requires k !in m || m[k] != JNull
    ensures StatOfAsWritten(m, k, size) == Some(StatOf(m, k, size))
  {
  }

  function StatSize(s: KeyStat): int { s.size }

  function StatsOf(m: map<string, Json>, size: Json -> nat): (r: seq<KeyStat>)
    ensures |r| == 5
    ensures forall i :: 0 <= i < 5 ==> r[i] == StatOf(m, BACKUP_KEYS[i], size)
  {
    Map(BACKUP_KEYS, (k: string) => StatOf(m, k, size))
  }

  /** After clearing, the total is 0 bytes. */
  lemma {:induction false} ClearedTotalIsZero(m: map<string, Json>, size: Json -> nat)
    ensures Sum(StatsOf(m - BACKUP_KEY_SET, size), StatSize) == 0
  {
    var r := StatsOf(m - BACKUP_KEY_SET, size);
    SumBounds(r, StatSize, 0, 0);
  }

  /** localStorage, with values kept parsed. */
  class Storage {
    var entries: map<string, Json>

    constructor(initial: map<string, Json>)
      ensures entries == initial
    {
      entries := initial;
    }

    /** exportAllData: the envelope is filled key by key, then the users
        are redacted when the loaded value is truthy. Storage is only
        read. */
    method ExportAllData(exportedAt: string) returns (backup: Json)
      ensures backup == Export(entries, exportedAt)
    {
      var stored := entries;
      var fs: seq<Field> := [];
      var i := 0;
      while i < |BACKUP_KEYS|
        invariant 0 <= i <= |BACKUP_KEYS| && |fs| == i
        invariant forall j :: 0 <= j < i ==> fs[j] == LoadField(stored, BACKUP_KEYS[j])
      {
        fs := fs + [LoadField(stored, BACKUP_KEYS[i])];
        i := i + 1;
      }
      var users := fs[0].value;
      if Truthy(users) {
        fs := fs[0 := Field(USERS_KEY, RedactUsers(users))];
      }
      assert fs == DataFields(stored);
      backup := JObj([Field("version", JStr(VERSION)), Field("exportedAt", JStr(exportedAt)), Field("data", JObj(fs))]);
    }

    /** The parse-and-restore body of importBackup: an unreadable text or
        a backup without version or data writes nothing; otherwise every
        entry of the data whose key is not the session and whose value is
        a list is saved, in order. */
    method ImportBackup(parsed: Option<Json>) returns (r: ImportResult)
      modifies this
      ensures parsed.None? ==> r == NotJson && entries == old(entries)
      ensures parsed.Some? && !Accepted(parsed.value) ==> r == InvalidFormat && entries == old(entries)
      ensures parsed.Some? && Accepted(parsed.value) ==>
                r == Imported(parsed.value)
                && entries == Restore(old(entries), EntriesOf(Get(parsed.value, "data").value))
    {
      if parsed.None? {
        return NotJson;
      }
      var backup := parsed.value;
      if !Accepted(backup) {
        return InvalidFormat;
      }
      var es := EntriesOf(Get(backup, "data").value);
      var i := 0;
      while i < |es|
        invariant 0 <= i <= |es|
        invariant entries == Restore(old(entries), es[..i])
      {
        assert es[..i + 1][..i] == es[..i];
        if es[i].key != SESSION_KEY && es[i].value.JArr? {
          entries := entries[es[i].key := es[i].value];
        }
        i := i + 1;
      }
      assert es[..i] == es;
      r := Imported(backup);
    }

    /** clearAllData: exactly the five keys are removed. */
    method ClearAllData()
      modifies this
      ensures entries == old(entries) - BACKUP_KEY_SET
    {
      var i := 0;
      while i < |BACKUP_KEYS|
        invariant 0 <= i <= |BACKUP_KEYS|
        invariant entries == old(entries) - (set k | k in BACKUP_KEYS[..i])
      {
        assert BACKUP_KEYS[..i + 1] == BACKUP_KEYS[..i] + [BACKUP_KEYS[i]];
        entries := entries - {BACKUP_KEYS[i]};
        i := i + 1;
      }
      assert BACKUP_KEYS[..i] == BACKUP_KEYS;
    }

    /** getStorageStats with the null count corrected: per-key statistics
        in key order and their total size. */
    method StorageStats(size: Json -> nat) returns (total: nat, breakdown: seq<KeyStat>)
      ensures breakdown == StatsOf(entries, size)
      ensures total == Sum(breakdown, StatSize)
    {
      total := 0;
      breakdown := [];
      var i := 0;
      while i < |BACKUP_KEYS|
        invariant 0 <= i <= |BACKUP_KEYS|
        invariant breakdown == StatsOf(entries, size)[..i]
        invariant total == Sum(breakdown, StatSize)
      {
        var s := StatOf(entries, BACKUP_KEYS[i], size);
        SumConcat(breakdown, [s], StatSize);
        breakdown := breakdown + [s];
        total := total + s.size;
        i := i + 1;
      }
    }
  }
}
