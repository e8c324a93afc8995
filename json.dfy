/** The JSON values the indicator service returns, with the two JavaScript
    operations the dashboard applies to them: truthiness and `obj[key]`. */
module Json {
  import opened Common

  /** A parsed JSON value; an object keeps its members in key order. */
  datatype Value =
    | Null
    | Bool(b: bool)
    | Number(n: real)
    | Str(s: string)
    | Array(items: seq<Value>)
    | Object(members: seq<(string, Value)>)

  /** JavaScript truthiness (`if (v)`) of a JSON value. */
  predicate Truthy(v: Value)
  {
    match v
    case Null => false
    case Bool(b) => b
    case Number(n) => n != 0.0
    case Str(s) => s != ""
    case _ => true
  }

  /** `key in obj` for an object with the given members. */
  predicate HasKey(members: seq<(string, Value)>, key: string)
  {
    exists i :: 0 <= i < |members| && members[i].0 == key
  }

  /** JSON.parse never yields two members with the same key. */
  predicate DistinctKeys(members: seq<(string, Value)>)
  {
    forall i, j :: 0 <= i < j < |members| ==> members[i].0 != members[j].0
  }

  /** `obj[key]`: the value stored under `key`, or None for `undefined`. */
  function Get(members: seq<(string, Value)>, key: string): (r: Option<Value>)
    ensures r.Some? <==> HasKey(members, key)
    ensures r.Some? ==> exists i :: 0 <= i < |members| && members[i] == (key, r.value)
  {
    if members == [] then None
    else if members[0].0 == key then Some(members[0].1)
    else
      var r := Get(members[1..], key);
      assert HasKey(members, key) ==> HasKey(members[1..], key) by {
        if HasKey(members, key) {
          var i :| 0 <= i < |members| && members[i].0 == key;
          assert i > 0 && members[1..][i - 1] == members[i];
        }
      }
      r
  }

  /** With distinct keys, `obj[key]` is the value paired with `key`. */
  lemma GetMember(members: seq<(string, Value)>, i: int)
    requires DistinctKeys(members)
    requires 0 <= i < |members|
    ensures Get(members, members[i].0) == Some(members[i].1)
  {
    var r := Get(members, members[i].0);
    var j :| 0 <= j < |members| && members[j] == (members[i].0, r.value);
    assert i == j;
  }
}
