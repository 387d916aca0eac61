/** Removing known secrets from what a handler printed before it is recorded. */
module Redaction {
  import opened JsonTrees
  import opened Prelude

  predicate AllNonEmpty(secrets: seq<string>)
  {
    forall i | 0 <= i < |secrets| :: secrets[i] != ""
  }

  // ----- Strings -----

  /** `value.replace(secret, "")`: occurrences from left to right, not overlapping. */
  function Replace(value: string, secret: string): (r: string)
    requires secret != ""
    ensures |r| <= |value|
    decreases |value|
  {
    if |value| < |secret| then value
    else if value[..|secret|] == secret then Replace(value[|secret|..], secret)
    else [value[0]] + Replace(value[1..], secret)
  }

  /** Replacing shortens the string exactly when the secret occurs in it. */
  lemma {:induction false} ReplaceShortens(value: string, secret: string)
    requires secret != ""
    ensures Contains(value, secret) <==> |Replace(value, secret)| < |value|
    ensures !Contains(value, secret) ==> Replace(value, secret) == value
    decreases |value|
  {
    if |value| < |secret| {
    } else if value[..|secret|] == secret {
      assert OccursAt(value, secret, 0);
    } else {
      ReplaceShortens(value[1..], secret);
      ContainsLater(value, secret);
    }
  }

  lemma ContainsLater(value: string, secret: string)
    requires |secret| <= |value| && value[..|secret|] != secret && secret != ""
    ensures Contains(value, secret) <==> Contains(value[1..], secret)
  {
    forall at | 0 <= at <= |value[1..]| && OccursAt(value[1..], secret, at) ensures OccursAt(value, secret, at + 1) {
      assert value[at + 1..at + 1 + |secret|] == value[1..][at..at + |secret|];
    }
    forall at | 0 < at <= |value| && OccursAt(value, secret, at) ensures OccursAt(value[1..], secret, at - 1) {
      assert value[at..at + |secret|] == value[1..][at - 1..at - 1 + |secret|];
    }
  }

  /** One pass over all secrets. */
  function Pass(value: string, secrets: seq<string>): (r: string)
    requires AllNonEmpty(secrets)
    ensures |r| <= |value|
  {
    if secrets == [] then value else Replace(Pass(value, secrets[..|secrets| - 1]), secrets[|secrets| - 1])
  }

  predicate Clean(value: string, secrets: seq<string>)
  {
    forall i | 0 <= i < |secrets| :: !Contains(value, secrets[i])
  }

  /** A pass that does not shorten the string changes nothing, because no secret occurs in it. */
  lemma {:induction false} PassShortens(value: string, secrets: seq<string>)
    requires AllNonEmpty(secrets)
    ensures Clean(value, secrets) <==> |Pass(value, secrets)| == |value|
    ensures Clean(value, secrets) ==> Pass(value, secrets) == value
    decreases |secrets|
  {
    if secrets != [] {
      var front, last := secrets[..|secrets| - 1], secrets[|secrets| - 1];
      PassShortens(value, front);
      ReplaceShortens(Pass(value, front), last);
      assert Clean(value, secrets) <==> Clean(value, front) && !Contains(value, last) by {
        assert secrets == front + [last];
      }
    }
  }

  /** `_remove_secrets`, as the fixpoint its loop computes. */
  function Removed(value: string, secrets: seq<string>): string
    requires AllNonEmpty(secrets)
    decreases |value|
  {
    var next := Pass(value, secrets);
    if |next| == |value| then value else Removed(next, secrets)
  }

  /** `_remove_secrets`: ends because every changing pass shortens the string. */
  method RemoveSecrets(value: string, secrets: seq<string>) returns (result: string)
    requires AllNonEmpty(secrets)
    ensures result == Removed(value, secrets)
  {
    var previous := None;
    result := value;
    while previous != Some(result)
      invariant Removed(result, secrets) == Removed(value, secrets)
      invariant previous.None? || Pass(previous.value, secrets) == result
      invariant previous == Some(result) ==> Removed(result, secrets) == result
      decreases if previous == None then 1 else 0, |result|, if previous == Some(result) then 0 else 1
    {
      ghost var before := result;
      previous := Some(result);
      for i := 0 to |secrets|
        invariant result == Pass(before, secrets[..i])
      {
        assert secrets[..i + 1][..i] == secrets[..i];
        result := Replace(result, secrets[i]);
      }
      assert secrets[..|secrets|] == secrets;
      PassShortens(before, secrets);
    }
  }

  lemma {:induction false} RemovedIsClean(value: string, secrets: seq<string>)
    requires AllNonEmpty(secrets)
    ensures Clean(Removed(value, secrets), secrets)
    decreases |value|
  {
    PassShortens(value, secrets);
    if |Pass(value, secrets)| != |value| { RemovedIsClean(Pass(value, secrets), secrets); }
  }

  /** A clean string is left alone. */
  lemma CleanIsKept(value: string, secrets: seq<string>)
    requires AllNonEmpty(secrets)
    ensures Removed(value, secrets) == value <==> Clean(value, secrets)
  {
    PassShortens(value, secrets);
    RemovedIsClean(value, secrets);
  }

  // ----- Trees -----

  /** `_contains_secret`. */
  predicate ContainsSecret(value: Json, secrets: seq<string>)
    decreases value
  {
    match value
    case Text(text) => !Clean(text, secrets)
    case List(items) => AnySecret(items, secrets)
    case Object(entries) => AnyEntrySecret(entries, secrets)
    case _ => false
  }

  predicate AnySecret(items: seq<Json>, secrets: seq<string>)
    decreases items
  {
    items != [] && (AnySecret(items[..|items| - 1], secrets) || ContainsSecret(items[|items| - 1], secrets))
  }

  predicate AnyEntrySecret(entries: seq<Entry>, secrets: seq<string>)
    decreases entries
  {
    entries != []
    && (AnyEntrySecret(entries[..|entries| - 1], secrets)
        || !Clean(entries[|entries| - 1].key, secrets) || ContainsSecret(entries[|entries| - 1].item, secrets))
  }

  predicate HasKey(entries: seq<Entry>, key: string)
  {
    exists i | 0 <= i < |entries| :: entries[i].key == key
  }

  /** `_redact_opaque`; `None` is the duplicate-key error. `sensitive` is `_sensitive_key`. */
  function Redacted(value: Json, secrets: seq<string>, sensitive: string -> bool): Option<Json>
    requires AllNonEmpty(secrets)
    decreases value
  {
    match value
    case Text(text) => Some(Text(Removed(text, secrets)))
    case List(items) =>
      var r := RedactedItems(items, secrets, sensitive);
      if r.Some? then Some(List(r.value)) else None
    case Object(entries) =>
      var r := RedactedEntries(entries, secrets, sensitive);
      if r.Some? then Some(Object(r.value)) else None
    case _ => Some(value)
  }

  function RedactedItems(items: seq<Json>, secrets: seq<string>, sensitive: string -> bool): Option<seq<Json>>
    requires AllNonEmpty(secrets)
    decreases items
  {
    if items == [] then Some([])
    else
      var front := RedactedItems(items[..|items| - 1], secrets, sensitive);
      var last := Redacted(items[|items| - 1], secrets, sensitive);
      if front.Some? && last.Some? then Some(front.value + [last.value]) else None
  }

  function RedactedEntries(entries: seq<Entry>, secrets: seq<string>, sensitive: string -> bool)
    : Option<seq<Entry>>
    requires AllNonEmpty(secrets)
    decreases entries
  {
    if entries == [] then Some([])
    else
      var front := RedactedEntries(entries[..|entries| - 1], secrets, sensitive);
      var key, item := entries[|entries| - 1].key, entries[|entries| - 1].item;
      var redactedKey := Removed(key, secrets);
      var last := if sensitive(key) || sensitive(redactedKey) then Some(Null) else Redacted(item, secrets, sensitive);
      if front.Some? && last.Some? && !HasKey(front.value, redactedKey)
      then Some(front.value + [Entry(redactedKey, last.value)]) else None
  }

  /** Whatever redaction returns holds no secret, anywhere. */
  lemma {:induction false} RedactedIsClean(value: Json, secrets: seq<string>, sensitive: string -> bool)
    requires AllNonEmpty(secrets) && Redacted(value, secrets, sensitive).Some?
    ensures !ContainsSecret(Redacted(value, secrets, sensitive).value, secrets)
    decreases value
  {
    match value
    case Text(text) => RemovedIsClean(text, secrets);
    case List(items) => ItemsAreClean(items, secrets, sensitive);
    case Object(entries) => EntriesAreClean(entries, secrets, sensitive);
    case _ =>
  }

  lemma {:induction false} ItemsAreClean(items: seq<Json>, secrets: seq<string>, sensitive: string -> bool)
    requires AllNonEmpty(secrets) && RedactedItems(items, secrets, sensitive).Some?
    ensures !AnySecret(RedactedItems(items, secrets, sensitive).value, secrets)
    decreases items
  {
    if items != [] {
      ItemsAreClean(items[..|items| - 1], secrets, sensitive);
      RedactedIsClean(items[|items| - 1], secrets, sensitive);
      var front := RedactedItems(items[..|items| - 1], secrets, sensitive).value;
      var all := RedactedItems(items, secrets, sensitive).value;
      assert all[..|all| - 1] == front;
    }
  }

  lemma {:induction false} EntriesAreClean(entries: seq<Entry>, secrets: seq<string>, sensitive: string -> bool)
    requires AllNonEmpty(secrets) && RedactedEntries(entries, secrets, sensitive).Some?
    ensures !AnyEntrySecret(RedactedEntries(entries, secrets, sensitive).value, secrets)
    decreases entries
  {
    if entries != [] {
      var key, item := entries[|entries| - 1].key, entries[|entries| - 1].item;
      EntriesAreClean(entries[..|entries| - 1], secrets, sensitive);
      RemovedIsClean(key, secrets);
      if !sensitive(key) && !sensitive(Removed(key, secrets)) { RedactedIsClean(item, secrets, sensitive); }
      var front := RedactedEntries(entries[..|entries| - 1], secrets, sensitive).value;
      var all := RedactedEntries(entries, secrets, sensitive).value;
      assert all[..|all| - 1] == front;
    }
  }

  /** Redacting again changes nothing. */
  lemma {:induction false} RedactTwice(value: Json, secrets: seq<string>, sensitive: string -> bool)
    requires AllNonEmpty(secrets) && Redacted(value, secrets, sensitive).Some?
    ensures Redacted(Redacted(value, secrets, sensitive).value, secrets, sensitive)
        == Redacted(value, secrets, sensitive)
    decreases value
  {
    match value
    case Text(text) =>
      RemovedIsClean(text, secrets);
      CleanIsKept(Removed(text, secrets), secrets);
    case List(items) => RedactItemsTwice(items, secrets, sensitive);
    case Object(entries) => RedactEntriesTwice(entries, secrets, sensitive);
    case _ =>
  }

  lemma {:induction false} RedactItemsTwice(items: seq<Json>, secrets: seq<string>, sensitive: string -> bool)
    requires AllNonEmpty(secrets) && RedactedItems(items, secrets, sensitive).Some?
    ensures RedactedItems(RedactedItems(items, secrets, sensitive).value, secrets, sensitive)
         == RedactedItems(items, secrets, sensitive)
    decreases items
  {
    if items != [] {
      RedactItemsTwice(items[..|items| - 1], secrets, sensitive);
      RedactTwice(items[|items| - 1], secrets, sensitive);
      var front := RedactedItems(items[..|items| - 1], secrets, sensitive).value;
      var all := RedactedItems(items, secrets, sensitive).value;
      assert all[..|all| - 1] == front;
    }
  }

  lemma {:induction false} RedactEntriesTwice(entries: seq<Entry>, secrets: seq<string>,
                                              sensitive: string -> bool)
    requires AllNonEmpty(secrets) && RedactedEntries(entries, secrets, sensitive).Some?
    ensures RedactedEntries(RedactedEntries(entries, secrets, sensitive).value, secrets, sensitive)
         == RedactedEntries(entries, secrets, sensitive)
    decreases entries
  {
    if entries != [] {
      var key, item := entries[|entries| - 1].key, entries[|entries| - 1].item;
      RedactEntriesTwice(entries[..|entries| - 1], secrets, sensitive);
      RemovedIsClean(key, secrets);
      CleanIsKept(Removed(key, secrets), secrets);
      if !sensitive(key) && !sensitive(Removed(key, secrets)) { RedactTwice(item, secrets, sensitive); }
      var front := RedactedEntries(entries[..|entries| - 1], secrets, sensitive).value;
      var all := RedactedEntries(entries, secrets, sensitive).value;
      assert all[..|all| - 1] == front;
    }
  }

  /** Some object, outside what a sensitive key hides, has two keys that redaction makes equal. */
  ghost predicate Collides(value: Json, secrets: seq<string>, sensitive: string -> bool)
    requires AllNonEmpty(secrets)
    decreases value
  {
    match value
    case List(items) => exists i | 0 <= i < |items| :: Collides(items[i], secrets, sensitive)
    case Object(entries) =>
      || (exists i, j | 0 <= i < j < |entries| :: SameRedactedKey(entries, i, j, secrets))
      || (exists i | 0 <= i < |entries| ::
            !Hidden(entries[i].key, secrets, sensitive) && Collides(entries[i].item, secrets, sensitive))
    case _ => false
  }

  ghost predicate SameRedactedKey(entries: seq<Entry>, i: nat, j: nat, secrets: seq<string>)
    requires AllNonEmpty(secrets) && i < |entries| && j < |entries|
  {
    Removed(entries[i].key, secrets) == Removed(entries[j].key, secrets)
  }

  predicate Hidden(key: string, secrets: seq<string>, sensitive: string -> bool)
    requires AllNonEmpty(secrets)
  {
    sensitive(key) || sensitive(Removed(key, secrets))
  }

  /** Redaction refuses exactly the trees in which two keys collide. */
  lemma {:induction false} RefusesCollisions(value: Json, secrets: seq<string>, sensitive: string -> bool)
    requires AllNonEmpty(secrets)
    ensures Redacted(value, secrets, sensitive).None? <==> Collides(value, secrets, sensitive)
    decreases value
  {
    match value
    case List(items) =>
      ItemsRefuse(items, secrets, sensitive);
    case Object(entries) =>
      EntriesRefuse(entries, secrets, sensitive);
    case _ =>
  }

  lemma {:induction false} ItemsRefuse(items: seq<Json>, secrets: seq<string>, sensitive: string -> bool)
    requires AllNonEmpty(secrets)
    ensures RedactedItems(items, secrets, sensitive).None?
       <==> exists i | 0 <= i < |items| :: Collides(items[i], secrets, sensitive)
    decreases items
  {
    if items != [] {
      var front := items[..|items| - 1];
      ItemsRefuse(front, secrets, sensitive);
      RefusesCollisions(items[|items| - 1], secrets, sensitive);
      assert forall i | 0 <= i < |front| :: front[i] == items[i];
    }
  }

  /** The keys of a redacted object are the redacted keys, in order. */
  lemma {:induction false} RedactedKeys(entries: seq<Entry>, secrets: seq<string>, sensitive: string -> bool)
    requires AllNonEmpty(secrets) && RedactedEntries(entries, secrets, sensitive).Some?
    ensures var r := RedactedEntries(entries, secrets, sensitive).value;
      |r| == |entries| && forall i | 0 <= i < |r| :: r[i].key == Removed(entries[i].key, secrets)
    decreases entries
  {
    if entries != [] { RedactedKeys(entries[..|entries| - 1], secrets, sensitive); }
  }

  ghost predicate EntriesCollide(entries: seq<Entry>, secrets: seq<string>, sensitive: string -> bool)
    requires AllNonEmpty(secrets)
  {
    || (exists i, j | 0 <= i < j < |entries| :: SameRedactedKey(entries, i, j, secrets))
    || (exists i | 0 <= i < |entries| ::
          !Hidden(entries[i].key, secrets, sensitive) && Collides(entries[i].item, secrets, sensitive))
  }

  lemma {:induction false} EntriesRefuse(entries: seq<Entry>, secrets: seq<string>, sensitive: string -> bool)
    requires AllNonEmpty(secrets)
    ensures RedactedEntries(entries, secrets, sensitive).None? <==> EntriesCollide(entries, secrets, sensitive)
    decreases entries
  {
    if entries != [] {
      var front, last := entries[..|entries| - 1], |entries| - 1;
      EntriesRefuse(front, secrets, sensitive);
      RefusesCollisions(entries[last].item, secrets, sensitive);
      if RedactedEntries(front, secrets, sensitive).Some? { KeyTaken(entries, secrets, sensitive); }
      EntriesCollideNext(entries, secrets, sensitive);
    }
  }

  lemma KeyTaken(entries: seq<Entry>, secrets: seq<string>, sensitive: string -> bool)
    requires AllNonEmpty(secrets) && entries != []
    requires RedactedEntries(entries[..|entries| - 1], secrets, sensitive).Some?
    ensures var last := |entries| - 1;
      HasKey(RedactedEntries(entries[..last], secrets, sensitive).value, Removed(entries[last].key, secrets))
      <==> exists i | 0 <= i < last :: SameRedactedKey(entries, i, last, secrets)
  {
    var last := |entries| - 1;
    var front := entries[..last];
    RedactedKeys(front, secrets, sensitive);
    var r := RedactedEntries(front, secrets, sensitive).value;
    assert forall i | 0 <= i < last :: front[i] == entries[i] && r[i].key == Removed(front[i].key, secrets);
    var key := Removed(entries[last].key, secrets);
    if HasKey(r, key) {
      var i :| 0 <= i < |r| && r[i].key == key;
      assert SameRedactedKey(entries, i, last, secrets);
    }
    if i :| 0 <= i < last && SameRedactedKey(entries, i, last, secrets) {
      assert r[i].key == key;
    }
  }

  lemma EntriesCollideNext(entries: seq<Entry>, secrets: seq<string>, sensitive: string -> bool)
    requires AllNonEmpty(secrets) && entries != []
    ensures var front, last := entries[..|entries| - 1], |entries| - 1;
      EntriesCollide(entries, secrets, sensitive) <==>
        || EntriesCollide(front, secrets, sensitive)
        || (exists i | 0 <= i < last :: SameRedactedKey(entries, i, last, secrets))
        || (!Hidden(entries[last].key, secrets, sensitive) && Collides(entries[last].item, secrets, sensitive))
  {
    var front, last := entries[..|entries| - 1], |entries| - 1;
    assert forall i | 0 <= i < last :: front[i] == entries[i];
    assert forall i, j | 0 <= i < last && 0 <= j < last ::
      SameRedactedKey(front, i, j, secrets) == SameRedactedKey(entries, i, j, secrets);
  }

  // ----- The code that fills the new mapping -----

  /** `_redact_opaque`. */
  method RedactOpaque(value: Json, secrets: seq<string>, sensitive: string -> bool) returns (redacted: Option<Json>)
    requires AllNonEmpty(secrets)
    ensures redacted == Redacted(value, secrets, sensitive)
    decreases value
  {
    match value
    case Text(text) =>
      var removed := RemoveSecrets(text, secrets);
      return Some(Text(removed));
    case List(items) =>
      var sofar: seq<Json> := [];
      for i := 0 to |items|
        invariant RedactedItems(items[..i], secrets, sensitive) == Some(sofar)
      {
        var item := RedactOpaque(items[i], secrets, sensitive);
        assert items[..i + 1][..i] == items[..i];
        if item.None? {
          ItemsRefuseEarly(items, i + 1, secrets, sensitive);
          return None;
        }
        sofar := sofar + [item.value];
      }
      assert items[..|items|] == items;
      return Some(List(sofar));
    case Object(entries) =>
      var filled: seq<Entry> := [];
      for i := 0 to |entries|
        invariant RedactedEntries(entries[..i], secrets, sensitive) == Some(filled)
      {
        assert entries[..i + 1][..i] == entries[..i];
        var key := RemoveSecrets(entries[i].key, secrets);
        if HasKey(filled, key) {
          EntriesRefuseEarly(entries, i + 1, secrets, sensitive);
          return None;
        }
        var item := Some(Null);
        if !sensitive(entries[i].key) && !sensitive(key) {
          item := RedactOpaque(entries[i].item, secrets, sensitive);
        }
        if item.None? {
          EntriesRefuseEarly(entries, i + 1, secrets, sensitive);
          return None;
        }
        filled := filled + [Entry(key, item.value)];
      }
      assert entries[..|entries|] == entries;
      return Some(Object(filled));
    case _ => return Some(value);
  }

  lemma {:induction false} ItemsRefuseEarly(items: seq<Json>, i: nat, secrets: seq<string>, sensitive: string -> bool)
    requires AllNonEmpty(secrets) && i <= |items| && RedactedItems(items[..i], secrets, sensitive).None?
    ensures RedactedItems(items, secrets, sensitive).None?
    decreases |items|
  {
    if i == |items| {
      assert items[..i] == items;
    } else {
      assert items[..|items| - 1][..i] == items[..i];
      ItemsRefuseEarly(items[..|items| - 1], i, secrets, sensitive);
    }
  }

  lemma {:induction false} EntriesRefuseEarly(entries: seq<Entry>, i: nat, secrets: seq<string>,
                                              sensitive: string -> bool)
    requires AllNonEmpty(secrets) && i <= |entries| && RedactedEntries(entries[..i], secrets, sensitive).None?
    ensures RedactedEntries(entries, secrets, sensitive).None?
    decreases |entries|
  {
    if i == |entries| {
      assert entries[..i] == entries;
    } else {
      assert entries[..|entries| - 1][..i] == entries[..i];
      EntriesRefuseEarly(entries[..|entries| - 1], i, secrets, sensitive);
    }
  }
}
