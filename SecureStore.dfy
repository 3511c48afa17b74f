/**
  * The device's secure key/value store as the two providers use it: a map
  * from keys to strings. Whether the platform accepts a call is not decided
  * here; each call is given that outcome.
  */
module SecureStore {
  import opened Wrappers

  /** The key the access token is kept under. */
  const TokenKey := "auth_access_token"

  /** The key the last open chat session is kept under. */
  const LastSessionKey := "last_chat_session_id"

  /** Whether the platform carried out a store call or rejected it with an error message. */
  datatype StoreOutcome = Done | Rejected(message: string)

  class Store {
    var entries: map<string, string>

    constructor(initial: map<string, string>)
      ensures entries == initial
    {
      entries := initial;
    }

    /** `getItemAsync`: the value under `key`, `None` when there is none, or the rejection. */
    method GetItem(key: string, outcome: StoreOutcome) returns (r: Result<Option<string>>)
      ensures outcome.Rejected? ==> r == Err(outcome.message)
      ensures outcome.Done? && key in entries ==> r == Ok(Some(entries[key]))
      ensures outcome.Done? && key !in entries ==> r == Ok(None)
    {
      if outcome.Rejected? {
        return Err(outcome.message);
      }
      r := Ok(if key in entries then Some(entries[key]) else None);
    }

    /** `setItemAsync`: on success `key` holds `value` and every other key is as it was; a rejection changes nothing. */
    method SetItem(key: string, value: string, outcome: StoreOutcome) returns (r: Result<()>)
      modifies this
      ensures entries == Written(old(entries), key, value, outcome)
      ensures r == if outcome.Done? then Ok(()) else Err(outcome.message)
    {
      if outcome.Rejected? {
        return Err(outcome.message);
      }
      entries := entries[key := value];
      r := Ok(());
    }

    /** `deleteItemAsync`: on success `key` is gone and every other key is as it was; a rejection changes nothing. */
    method DeleteItem(key: string, outcome: StoreOutcome) returns (r: Result<()>)
      modifies this
      ensures entries == Deleted(old(entries), key, outcome)
      ensures r == if outcome.Done? then Ok(()) else Err(outcome.message)
    {
      if outcome.Rejected? {
        return Err(outcome.message);
      }
      entries := entries - {key};
      r := Ok(());
    }
  }

  /** The map after a best-effort write: the rejection is ignored, so the map is then as it was. */
  function Written(entries: map<string, string>, key: string, value: string, outcome: StoreOutcome): (after: map<string, string>)
    ensures outcome.Done? ==> key in after && after[key] == value
    ensures forall k :: k != key ==> (k in after <==> k in entries) && (k in entries ==> after[k] == entries[k])
    ensures outcome.Rejected? ==> after == entries
  {
    if outcome.Done? then entries[key := value] else entries
  }

  /** The map after a best-effort delete: the rejection is ignored, so the map is then as it was. */
  function Deleted(entries: map<string, string>, key: string, outcome: StoreOutcome): (after: map<string, string>)
    ensures outcome.Done? ==> key !in after
    ensures forall k :: k != key ==> (k in after <==> k in entries) && (k in entries ==> after[k] == entries[k])
    ensures outcome.Rejected? ==> after == entries
  {
    if outcome.Done? then entries - {key} else entries
  }

  /** The two providers keep their values under different keys, so neither disturbs the other's. */
  lemma KeysDistinct()
    ensures TokenKey != LastSessionKey
  {
    assert TokenKey[0] != LastSessionKey[0];
  }
}
