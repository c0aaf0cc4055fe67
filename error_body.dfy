/**
 * The body of a refused request as the pages read it: a bare text, or an
 * object whose fields carry either a list of error texts or one text
 * (`detail`, `message`).
 */
module ErrorBody {
  import opened Wrappers

  /** A field's value: a list of error texts, or one text. */
  datatype FieldErrors = Many(texts: seq<string>) | One(text: string)

  /** The reply's data: a text, or an object's fields in their order. */
  datatype ErrorData = TextData(text: string) | ObjectData(entries: seq<(string, FieldErrors)>)

  /** `data[key]` when it is a non-empty text (a value JavaScript treats as true). */
  function TextOf(entries: seq<(string, FieldErrors)>, key: string): (r: Option<string>)
    ensures r.Some? ==> r.value != "" && exists k :: 0 <= k < |entries| && entries[k] == (key, One(r.value))
  {
    if entries == [] then None
    else if entries[0].0 == key then
      (match entries[0].1
       case One(text) => if text != "" then Some(text) else None
       case Many(_) => None)
    else
      var r := TextOf(entries[1..], key);
      assert r.Some? ==> exists k :: 0 <= k < |entries| && entries[k] == (key, One(r.value)) by {
        if r.Some? {
          var k :| 0 <= k < |entries[1..]| && entries[1..][k] == (key, One(r.value));
          assert entries[k + 1] == (key, One(r.value));
        }
      }
      r
  }

  /** An object without the key has no text under it. */
  lemma {:induction false} TextOfAbsent(entries: seq<(string, FieldErrors)>, key: string)
    requires forall k :: 0 <= k < |entries| ==> entries[k].0 != key
    ensures TextOf(entries, key).None?
  {
    if entries != [] {
      TextOfAbsent(entries[1..], key);
    }
  }

  /** The text under a key is decided by the first field with that key. */
  lemma {:induction false} TextOfFirst(entries: seq<(string, FieldErrors)>, key: string, k: int)
    requires 0 <= k < |entries| && entries[k].0 == key
    requires forall j :: 0 <= j < k ==> entries[j].0 != key
    ensures TextOf(entries, key)
            == (if entries[k].1.One? && entries[k].1.text != "" then Some(entries[k].1.text) else None)
  {
    if k > 0 {
      assert forall j :: 0 <= j < k - 1 ==> entries[1..][j].0 != key by {
        forall j | 0 <= j < k - 1 ensures entries[1..][j].0 != key {
          assert entries[1..][j] == entries[j + 1];
        }
      }
      TextOfFirst(entries[1..], key, k - 1);
    }
  }
}
