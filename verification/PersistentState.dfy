/** The crash-safe state file (agent/ops/state.py). A state is a dictionary of JSON values; the text
    written for a dictionary is taken to read back as that dictionary. */
module PersistentState {
  import opened Canonical

  type Dict = map<string, Json>

  const DEFAULTS: Dict := map[
    "positions" := Obj([]),
    "high_water_mark" := Number("0.0"),
    "nav" := Number("0.0"),
    "stable_usd" := Number("0.0"),
    "receipt_seq" := Number("0"),
    "last_tick_ts" := Number("0.0"),
    "last_trade_ts" := Number("0.0"),
    "trades_this_week" := Number("0"),
    "trades_last_hour" := Number("0"),
    "intent_seq" := Number("0"),
    "pending_intent" := Null,
    "mode" := Str("paper"),
    "kill" := Bool(false)
  ]

  // What the state path holds: nothing, a JSON object, another JSON value, or no JSON.
  datatype Content = Missing | Object(dict: Dict) | OtherJson | Garbage

  // Where a save breaks off, by an exception or with the process.
  datatype Fault = NoFault | Encoding | WritingTemp | BeforeReplace | AfterReplace

  // Up to the rename the previous snapshot stands, from the rename on the new one does.
  predicate Lands(fault: Fault) {
    fault == NoFault || fault == AfterReplace
  }

  datatype Loaded = Ok(dict: Dict) | StateError

  function LoadOf(file: Content): Loaded {
    match file
    case Missing => Ok(DEFAULTS)
    case Object(dict) => Ok(DEFAULTS + dict)
    case _ => StateError
  }

  /** Under each key a load finds what the file's object has, or else the default; a file that holds anything but an
      object is an error. */
  lemma LoadMeans(file: Content, key: string)
    ensures LoadOf(file).Ok? <==> file.Missing? || file.Object?
    ensures LoadOf(file).Ok? ==> var loaded := LoadOf(file).dict;
              && (key in loaded <==> key in DEFAULTS || (file.Object? && key in file.dict))
              && (file.Object? && key in file.dict ==> loaded[key] == file.dict[key])
              && (key in DEFAULTS && !(file.Object? && key in file.dict) ==> loaded[key] == DEFAULTS[key])
  {
    hide DEFAULTS;
  }

  class Store {
    var file: Content
    var temp: Content        // the abandoned or moved temporary file; never read
    var data: Dict

    constructor (file: Content)
      ensures this.file == file && data == DEFAULTS
    {
      this.file, temp, data := file, Missing, DEFAULTS;
    }

    method Load() returns (r: Loaded)
      modifies this
      ensures r == LoadOf(old(file)) && file == old(file) && temp == old(temp)
      ensures data == if r.Ok? then r.dict else old(data)
    {
      if file.Missing? {
        data := DEFAULTS;
        return Ok(data);
      }
      if !file.Object? {
        return StateError;
      }
      data := DEFAULTS + file.dict;
      return Ok(data);
    }

    method Save(fault: Fault) returns (ok: bool)
      modifies this
      ensures ok <==> fault == NoFault
      ensures data == old(data)
      ensures file == if Lands(fault) then Object(data) else old(file)
    {
      if fault == Encoding {
        return false;
      }
      if fault == WritingTemp {
        temp := Garbage;
        return false;
      }
      temp := Object(data);
      if fault == BeforeReplace {
        return false;
      }
      file, temp := temp, Missing;
      return fault == NoFault;
    }

    method Write(state: Dict, fault: Fault) returns (ok: bool)
      modifies this
      ensures ok <==> fault == NoFault
      ensures data == DEFAULTS + state
      ensures file == if Lands(fault) then Object(DEFAULTS + state) else old(file)
    {
      data := DEFAULTS + state;
      ok := Save(fault);
    }

    method Update(fields: Dict, fault: Fault) returns (ok: bool)
      modifies this
      ensures !(fields.Keys <= DEFAULTS.Keys) ==> !ok && data == old(data) && file == old(file)
      ensures fields.Keys <= DEFAULTS.Keys ==>
                && (ok <==> fault == NoFault) && data == old(data) + fields
                && file == if Lands(fault) then Object(old(data) + fields) else old(file)
    {
      if !(fields.Keys <= DEFAULTS.Keys) {
        return false;
      }
      data := data + fields;
      ok := Save(fault);
    }
  }

  datatype Attempt = Attempt(state: Dict, fault: Fault)

  function FileAfter(file: Content, writes: seq<Attempt>): Content {
    if writes == [] then file
    else
      var w := writes[|writes| - 1];
      if Lands(w.fault) then Object(DEFAULTS + w.state) else FileAfter(file, writes[..|writes| - 1])
  }

  /** Any number of writes on one store, each possibly breaking off, leave the file that `FileAfter` says. */
  method WriteAll(store: Store, writes: seq<Attempt>)
    modifies store
    ensures store.file == FileAfter(old(store.file), writes)
  {
    var i := 0;
    while i < |writes|
      invariant 0 <= i <= |writes|
      invariant store.file == FileAfter(old(store.file), writes[..i])
    {
      assert writes[..i + 1][..i] == writes[..i];
      var _ := store.Write(writes[i].state, writes[i].fault);
      i := i + 1;
    }
    assert writes[..i] == writes;
  }

  /** The last complete write survives. After any sequence of writes, each of which may break off anywhere,
      a load yields the whole state of the last write that reached its rename: every key it set, the
      defaults for the others, and nothing of any other write. */
  lemma {:induction false} LastCompleteWriteSurvives(file: Content, writes: seq<Attempt>, k: nat)
    requires k < |writes| && Lands(writes[k].fault)
    requires forall i | k < i < |writes| :: !Lands(writes[i].fault)
    ensures LoadOf(FileAfter(file, writes)) == Ok(DEFAULTS + writes[k].state)
    ensures DEFAULTS.Keys <= writes[k].state.Keys ==> LoadOf(FileAfter(file, writes)) == Ok(writes[k].state)
  {
    if k < |writes| - 1 {
      LastCompleteWriteSurvives(file, writes[..|writes| - 1], k);
    } else {
      var s := writes[k].state;
      assert DEFAULTS + (DEFAULTS + s) == DEFAULTS + s;
    }
    var s := writes[k].state;
    if DEFAULTS.Keys <= s.Keys { assert DEFAULTS + s == s; }
  }
}
