/**
 * `load_data` of app.py: the persisted JSON document, read and completed with
 * defaults for the four keys the dashboard needs. Reading the file and parsing
 * JSON are outside the model; their outcome is a parameter.
 */
module Persistence {

  /** A JSON value as `json.load` returns it. */
  datatype Value =
    | Null
    | Bool(b: bool)
    | Number(n: int)
    | Str(s: string)
    | Arr(items: seq<Value>)
    | Obj(fields: map<string, Value>)

  /** What opening and parsing the data file produced. */
  datatype FileRead =
    | Absent                                 // the file does not exist
    | Unreadable                             // IOError or JSONDecodeError
    | Parsed(doc: map<string, Value>)        // a JSON object

  const BRIEFING_STALE: string := "Data required to generate briefing."

  /** The keys of `default_data`, in its order. */
  const DEFAULT_KEYS: seq<string> := ["jobs", "techs", "locations", "briefing"]

  /** `default_data`: empty lists and the stale-briefing sentinel. */
  function Defaults(): (d: map<string, Value>)
    ensures d.Keys == set k | k in DEFAULT_KEYS
  {
    map["jobs" := Arr([]), "techs" := Arr([]), "locations" := Arr([]), "briefing" := Str(BRIEFING_STALE)]
  }

  /**
   * `load_data()`. A missing or unreadable file gives exactly the defaults.
   * A parsed document keeps every key it has, with its value, and gains each
   * missing default key with its default value, and nothing else; so a
   * document written by `save_state`, which holds all four keys, is read back
   * unchanged.
   */
  method LoadData(file: FileRead) returns (data: map<string, Value>)
    ensures !file.Parsed? ==> data == Defaults()
    ensures !file.Parsed? ==> data["briefing"] == Str(BRIEFING_STALE)
    ensures file.Parsed? ==> data.Keys == file.doc.Keys + Defaults().Keys
    ensures file.Parsed? ==> forall k :: k in file.doc ==> data[k] == file.doc[k]
    ensures file.Parsed? ==> forall k :: k in Defaults() && k !in file.doc ==> data[k] == Defaults()[k]
    ensures forall k :: k in DEFAULT_KEYS ==> k in data
    ensures file.Parsed? && Defaults().Keys <= file.doc.Keys ==> data == file.doc
  {
    var defaults := Defaults();
    if !file.Parsed? {
      return defaults;
    }
    data := file.doc;
    var i := 0;
    while i < |DEFAULT_KEYS|
      invariant 0 <= i <= |DEFAULT_KEYS|
      invariant data.Keys == file.doc.Keys + set k | k in DEFAULT_KEYS[..i]
      invariant forall k :: k in file.doc ==> data[k] == file.doc[k]
      invariant forall k :: k in data && k !in file.doc ==> k in defaults && data[k] == defaults[k]
    {
      var k := DEFAULT_KEYS[i];
      if k !in data {
        data := data[k := defaults[k]];
      }
      assert DEFAULT_KEYS[..i + 1] == DEFAULT_KEYS[..i] + [k];
      i := i + 1;
    }
    assert DEFAULT_KEYS[..i] == DEFAULT_KEYS;
  }
}
