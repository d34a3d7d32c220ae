/**
 * The JSON values that encoding/json produces for this service's records.
 * Only what the records need: strings, integers and objects whose members keep
 * the order of the Go struct's fields. Byte-level syntax is not modelled.
 */
module Json {
  import opened Wrappers

  datatype Value =
    | String(s: string)
    | Int(n: int)
    | Object(members: seq<(string, Value)>)

  /**
   * The value stored under `key`. When the name occurs more than once the last
   * member wins, as it does when encoding/json decodes into a struct: each
   * member overwrites the field in turn.
   */
  function Member(members: seq<(string, Value)>, key: string): Option<Value>
  {
    if members == [] then None
    else if members[|members| - 1].0 == key then Some(members[|members| - 1].1)
    else Member(members[..|members| - 1], key)
  }

  /** A member is found exactly when one has the name, and the one found is the last with it. */
  lemma {:induction false} MemberIsLast(members: seq<(string, Value)>, key: string)
    ensures Member(members, key).None? <==> forall i :: 0 <= i < |members| ==> members[i].0 != key
    ensures Member(members, key).Some? ==>
      exists i :: 0 <= i < |members| && members[i] == (key, Member(members, key).value) &&
                  forall j :: i < j < |members| ==> members[j].0 != key
  {
    if members != [] && members[|members| - 1].0 != key {
      var init := members[..|members| - 1];
      MemberIsLast(init, key);
      if Member(init, key).Some? {
        var i :| 0 <= i < |init| && init[i] == (key, Member(init, key).value) &&
                 forall j :: i < j < |init| ==> init[j].0 != key;
        assert members[i] == init[i];
      }
    }
  }
}
