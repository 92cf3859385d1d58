/** The `key: value` texts a drawing carries its metadata in, and the lookup
    of a key among a block's entities. */
module KeyValues {
  import opened Wrappers
  import opened Strings
  import opened Dxf

  datatype KeyValue = KeyValue(key: string, value: string)

  /** `getTextKeyValue`: a text without a colon has no key; otherwise the key
      is everything before the first colon, untouched, and the value is the
      rest, trimmed. */
  function GetTextKeyValue(text: string): (r: Option<KeyValue>)
    ensures r.None? <==> ':' !in text
    ensures r.Some? ==>
              var k := r.value.key;
              && |k| < |text| && text[..|k|] == k && text[|k|] == ':' && ':' !in k
              && r.value.value == Trim(text[|k| + 1..])
  {
    var i := IndexOf(text, ':');
    if i == -1 then None else Some(KeyValue(text[..i], Trim(text[i + 1..])))
  }

  /** Joining a colon-free key and a value with a colon and reading the text
      back gives the key and the trimmed value. */
  lemma {:induction false} KeyValueRoundTrip(key: string, value: string)
    requires ':' !in key
    ensures GetTextKeyValue(key + ":" + value) == Some(KeyValue(key, Trim(value)))
  {
    var text := key + ":" + value;
    assert text[|key|] == ':';
    assert text[..|key|] == key;
    assert text[|key| + 1..] == value;
  }

  /** The `find` predicate of `_findKey`: a TEXT whose key, lower-cased,
      is exactly `key`. */
  predicate Matches(e: Entity, key: string) {
    && e.Text?
    && var kv := GetTextKeyValue(e.text);
    && kv.Some? && ToLower(kv.value.key) == key
  }

  /** `es[k]` is the first entity matching `key`. */
  predicate FirstMatch(es: seq<Entity>, key: string, k: int) {
    && 0 <= k < |es| && Matches(es[k], key)
    && forall j :: 0 <= j < k ==> !Matches(es[j], key)
  }

  /** There is only one first match. */
  lemma FirstMatchUnique(es: seq<Entity>, key: string, i: int, j: int)
    requires FirstMatch(es, key, i) && FirstMatch(es, key, j)
    ensures i == j
  {
  }

  /** The value of a matching TEXT. */
  function ValueOf(e: Entity, key: string): string
    requires Matches(e, key)
  {
    GetTextKeyValue(e.text).value.value
  }

  /** `xs.findIndex(p)` from `from` on: the position of the first element
      satisfying `p`, or -1. */
  function FirstIndex<T>(xs: seq<T>, p: T -> bool, from: nat): (k: int)
    requires from <= |xs|
    ensures k == -1 <==> forall j :: from <= j < |xs| ==> !p(xs[j])
    ensures k != -1 ==> from <= k < |xs| && p(xs[k]) && forall j :: from <= j < k ==> !p(xs[j])
    decreases |xs| - from
  {
    if from == |xs| then -1
    else if p(xs[from]) then from
    else FirstIndex(xs, p, from + 1)
  }

  /** The first match in `a + b` is the first in `a`, or else the first in
      `b` shifted past `a`. */
  lemma FirstIndexAppend<T>(a: seq<T>, b: seq<T>, p: T -> bool)
    ensures var i, j := FirstIndex(a, p, 0), FirstIndex(b, p, 0);
            FirstIndex(a + b, p, 0) == if i != -1 then i else if j == -1 then -1 else |a| + j
  {
    var i, j, k := FirstIndex(a, p, 0), FirstIndex(b, p, 0), FirstIndex(a + b, p, 0);
    assert forall n :: 0 <= n < |a| ==> (a + b)[n] == a[n];
    assert forall n :: 0 <= n < |b| ==> (a + b)[|a| + n] == b[n];
    if i != -1 {
      assert p((a + b)[i]);
    } else if j != -1 {
      assert p((a + b)[|a| + j]);
    }
  }

  /** `_findKey`: the value of the first TEXT whose key matches, or null. */
  function FindKey(es: seq<Entity>, key: string): (r: Option<string>)
    ensures r.None? <==> forall k :: 0 <= k < |es| ==> !Matches(es[k], key)
    ensures r.Some? ==> exists k :: FirstMatch(es, key, k) && r.value == ValueOf(es[k], key)
  {
    var k := FirstIndex(es, e => Matches(e, key), 0);
    if k == -1 then None
    else
      assert FirstMatch(es, key, k);
      Some(ValueOf(es[k], key))
  }

  /** The first match decides: entities after it are never looked at, and a
      prefix without a match is skipped. */
  lemma FindKeyAppend(a: seq<Entity>, b: seq<Entity>, key: string)
    ensures FindKey(a + b, key) == if FindKey(a, key).Some? then FindKey(a, key) else FindKey(b, key)
  {
    var p := e => Matches(e, key);
    FirstIndexAppend(a, b, p);
    var i, j := FirstIndex(a, p, 0), FirstIndex(b, p, 0);
    if i != -1 {
      assert (a + b)[i] == a[i];
    } else if j != -1 {
      assert (a + b)[|a| + j] == b[j];
    }
  }

  /** Keys are matched case-insensitively on the text's side, and the value
      is trimmed. */
  lemma KeyCaseIsIgnored(layer: string, key: string, value: string)
    requires ':' !in key
    ensures FindKey([Text(layer, key + ":" + value)], ToLower(key)) == Some(Trim(value))
  {
    KeyValueRoundTrip(key, value);
    assert FirstMatch([Text(layer, key + ":" + value)], ToLower(key), 0);
  }

  /** A blank before the colon is part of the key, so `size : 36` does not
      answer to `size`. */
  lemma BlankBeforeColonIsNoMatch(layer: string, key: string, value: string)
    requires ':' !in key
    ensures FindKey([Text(layer, key + " :" + value)], ToLower(key)) == None
  {
    assert key + " :" + value == (key + " ") + ":" + value;
    assert ':' !in key + " ";
    KeyValueRoundTrip(key + " ", value);
    assert |ToLower(key + " ")| != |ToLower(key)|;
  }

  lemma LowerHasNoCapital(s: string, key: string, i: int)
    requires 0 <= i < |key| && 'A' <= key[i] <= 'Z'
    ensures ToLower(s) != key
  {
  }

  /** The lookup key is compared with a lower-cased key, so a key holding a
      capital letter never matches anything. */
  lemma CapitalKeyNeverMatches(es: seq<Entity>, key: string, i: int)
    requires 0 <= i < |key| && 'A' <= key[i] <= 'Z'
    ensures FindKey(es, key) == None
  {
    forall k | 0 <= k < |es| && es[k].Text? && GetTextKeyValue(es[k].text).Some?
      ensures ToLower(GetTextKeyValue(es[k].text).value.key) != key
    {
      LowerHasNoCapital(GetTextKeyValue(es[k].text).value.key, key, i);
    }
  }
}
