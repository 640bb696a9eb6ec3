/**
 * `SessionManager`: the table from a Telegram user to the Claude CLI session
 * the bridge continues for them, written through to `sessions.json` after
 * every change. The file is the ghost field `persisted`; `uuid.uuid4()` is the
 * `freshId` each operation that may create a session is given.
 */
module Sessions {
  import opened Wrappers
  import Text

  /** One user's record: `{session_id, model, message_count}`. */
  datatype Session = Session(sessionId: string, model: Option<string>, messageCount: nat)

  /** `self._data`, keyed by `str(user_id)`. */
  type Table = map<string, Session>

  /** What the sessions file holds: nothing, text `json.loads` rejects, or a table written by `_save`. */
  datatype SessionsFile = Missing | Unreadable | Written(table: Table)

  /** `_load`: a missing or unreadable file starts an empty table. */
  function Load(file: SessionsFile): Table {
    match file
    case Written(t) => t
    case _ => map[]
  }

  /** `str(user_id)`. */
  function UserKey(userId: int): string {
    Text.DecimalString(userId)
  }

  /** Two users never share a record. */
  lemma UserKeyInjective(a: int, b: int)
    requires UserKey(a) == UserKey(b)
    ensures a == b
  {
    Text.DecimalInjective(a, b);
  }

  // The table after each operation, as functions of the table before it.

  function Ensured(t: Table, key: string, freshId: string, defaultModel: Option<string>): Table {
    if key in t then t else t[key := Session(freshId, defaultModel, 0)]
  }

  function AfterReset(t: Table, key: string, freshId: string, defaultModel: Option<string>): Table {
    t[key := Session(freshId, if key in t then t[key].model else defaultModel, 0)]
  }

  function AfterSetModel(t: Table, key: string, model: string, freshId: string, defaultModel: Option<string>): Table {
    var e := Ensured(t, key, freshId, defaultModel);
    e[key := e[key].(model := Some(model))]
  }

  function AfterIncrement(t: Table, key: string, freshId: string, defaultModel: Option<string>): Table {
    var e := Ensured(t, key, freshId, defaultModel);
    e[key := e[key].(messageCount := e[key].messageCount + 1)]
  }

  /** `n` calls of `increment` for one user. */
  function AfterIncrements(t: Table, key: string, freshId: string, defaultModel: Option<string>, n: nat): Table
    decreases n
  {
    if n == 0 then t
    else AfterIncrement(AfterIncrements(t, key, freshId, defaultModel, n - 1), key, freshId, defaultModel)
  }

  /** `r` differs from `t` at most at `key`. */
  ghost predicate OnlyAt(t: Table, r: Table, key: string) {
    forall k :: k != key ==> (k in r <==> k in t) && (k in t ==> r[k] == t[k])
  }

  /** `ensure` is idempotent: a second call, with whatever fresh id, finds the first call's record. */
  lemma EnsureIdempotent(t: Table, key: string, id1: string, id2: string, defaultModel: Option<string>)
    ensures Ensured(Ensured(t, key, id1, defaultModel), key, id2, defaultModel) == Ensured(t, key, id1, defaultModel)
    ensures key in t ==> Ensured(t, key, id1, defaultModel) == t
  {
  }

  /** A handler that ensures the record and then increments it counts one message, as a lone increment would. */
  lemma IncrementAfterEnsure(t: Table, key: string, id1: string, id2: string, defaultModel: Option<string>)
    ensures AfterIncrement(Ensured(t, key, id1, defaultModel), key, id2, defaultModel) == AfterIncrement(t, key, id1, defaultModel)
  {
    EnsureIdempotent(t, key, id1, id2, defaultModel);
  }

  /** Every operation touches its own user's record and no other. */
  lemma OperationsStayLocal(t: Table, key: string, freshId: string, model: string, defaultModel: Option<string>)
    ensures OnlyAt(t, Ensured(t, key, freshId, defaultModel), key)
    ensures OnlyAt(t, AfterReset(t, key, freshId, defaultModel), key)
    ensures OnlyAt(t, AfterSetModel(t, key, model, freshId, defaultModel), key)
    ensures OnlyAt(t, AfterIncrement(t, key, freshId, defaultModel), key)
  {
  }

  /**
   * `n` increments raise the count by exactly `n` and change nothing else:
   * after the first one has created the record if need be, the session id and
   * model stay as they were and the other users are untouched.
   */
  lemma {:induction false} IncrementsAddUp(t: Table, key: string, freshId: string, defaultModel: Option<string>, n: nat)
    requires n >= 1
    ensures var e := Ensured(t, key, freshId, defaultModel);
      AfterIncrements(t, key, freshId, defaultModel, n) == e[key := e[key].(messageCount := e[key].messageCount + n)]
    decreases n
  {
    if n > 1 {
      IncrementsAddUp(t, key, freshId, defaultModel, n - 1);
    }
  }

  /**
   * `reset` starts a new conversation: the fresh id, a zero count, and the
   * model kept even when it is `None`; the process default only for a user
   * without a record. When the fresh id is new to the table, the id changes.
   */
  lemma ResetStartsOver(t: Table, key: string, freshId: string, defaultModel: Option<string>)
    requires forall k :: k in t ==> t[k].sessionId != freshId
    ensures var r := AfterReset(t, key, freshId, defaultModel);
      && key in r && r[key].sessionId == freshId && r[key].messageCount == 0
      && (key in t ==> r[key].model == t[key].model && r[key].sessionId != t[key].sessionId)
      && (key !in t ==> r[key].model == defaultModel)
  {
  }

  class SessionManager {
    /** `self._data`. */
    var data: Table
    /** The contents of the sessions file. */
    ghost var persisted: SessionsFile
    /** `CLAUDE_MODEL`, the model of a new user's record. */
    const defaultModel: Option<string>

    constructor (file: SessionsFile, defaultModel: Option<string>)
      ensures data == Load(file) && persisted == file && this.defaultModel == defaultModel
    {
      this.defaultModel := defaultModel;
      persisted := file;
      match file {
        case Written(t) => data := t;
        case Missing => data := map[];
        case Unreadable => data := map[];
      }
    }

    /** `_save`: the whole table is written. */
    method Save()
      modifies this`persisted
      ensures persisted == Written(data)
    {
      persisted := Written(data);
    }

    method Get(userId: int) returns (s: Option<Session>)
      ensures s.Some? <==> UserKey(userId) in data
      ensures s.Some? ==> s.value == data[UserKey(userId)]
    {
      var key := UserKey(userId);
      s := if key in data then Some(data[key]) else None;
    }

    /** The file is written only when a record is created. */
    method Ensure(userId: int, freshId: string) returns (s: Session)
      modifies this`data, this`persisted
      ensures data == Ensured(old(data), UserKey(userId), freshId, defaultModel)
      ensures UserKey(userId) in data && s == data[UserKey(userId)]
      ensures UserKey(userId) in old(data) ==> s == old(data)[UserKey(userId)] && persisted == old(persisted)
      ensures UserKey(userId) !in old(data) ==> s == Session(freshId, defaultModel, 0) && persisted == Written(data)
    {
      var key := UserKey(userId);
      if key !in data {
        data := data[key := Session(freshId, defaultModel, 0)];
        Save();
      }
      s := data[key];
    }

    method Reset(userId: int, freshId: string) returns (s: Session)
      modifies this`data, this`persisted
      ensures data == AfterReset(old(data), UserKey(userId), freshId, defaultModel)
      ensures s == data[UserKey(userId)] && s.sessionId == freshId && s.messageCount == 0
      ensures s.model == if UserKey(userId) in old(data) then old(data)[UserKey(userId)].model else defaultModel
      ensures persisted == Written(data)
    {
      var key := UserKey(userId);
      var oldModel := if key in data then data[key].model else defaultModel;
      data := data[key := Session(freshId, oldModel, 0)];
      Save();
      s := data[key];
    }

    method SetModel(userId: int, model: string, freshId: string)
      modifies this`data, this`persisted
      ensures data == AfterSetModel(old(data), UserKey(userId), model, freshId, defaultModel)
      ensures var before := Ensured(old(data), UserKey(userId), freshId, defaultModel)[UserKey(userId)];
        data[UserKey(userId)] == Session(before.sessionId, Some(model), before.messageCount)
      ensures persisted == Written(data)
    {
      var session := Ensure(userId, freshId);
      data := data[UserKey(userId) := session.(model := Some(model))];
      Save();
    }

    method Increment(userId: int, freshId: string)
      modifies this`data, this`persisted
      ensures data == AfterIncrement(old(data), UserKey(userId), freshId, defaultModel)
      ensures var before := Ensured(old(data), UserKey(userId), freshId, defaultModel)[UserKey(userId)];
        data[UserKey(userId)] == before.(messageCount := before.messageCount + 1)
      ensures persisted == Written(data)
    {
      var session := Ensure(userId, freshId);
      data := data[UserKey(userId) := session.(messageCount := session.messageCount + 1)];
      Save();
    }
  }
}
