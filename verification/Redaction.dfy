/** The JSON details of an audit event and their redaction (`redact` in app/audit.py). */
module Redaction {
  import opened Common
  import T = Text

  datatype Json =
    | Null
    | Bool(b: bool)
    | Number(text: string)
    | Text(s: string)
    | List(items: Items)
    | Object(fields: Fields)

  datatype Items = NoItems | Item(head: Json, tail: Items)

  datatype Fields = NoFields | Field(key: string, value: Json, rest: Fields)

  const SENSITIVE_KEYS: seq<string> := [
    "password", "token", "bot_token", "api_hash", "session", "code", "totp", "secret",
    "credentials", "authorization", "phone", "email", "body_enc"]

  const TEXT_LIMIT := 2000
  const REDACTED := Text("[REDACTED]")

  predicate IsSensitive(key: string)
  {
    exists i :: 0 <= i < |SENSITIVE_KEYS| && T.Contains(T.Lower(key), SENSITIVE_KEYS[i])
  }

  function Redact(value: Json): Json
  {
    match value
    case Object(fields) => Object(RedactFields(fields))
    case List(items) => List(RedactItems(items))
    case Text(s) => if |s| > TEXT_LIMIT then Text(s[..TEXT_LIMIT] + "\U{2026}") else value
    case _ => value
  }

  function RedactItems(items: Items): Items
  {
    match items
    case NoItems => NoItems
    case Item(head, tail) => Item(Redact(head), RedactItems(tail))
  }

  function RedactFields(fields: Fields): Fields
  {
    match fields
    case NoFields => NoFields
    case Field(key, value, rest) =>
      Field(key, if IsSensitive(key) then REDACTED else Redact(value), RedactFields(rest))
  }

  /** `details or {}` for details that are an object or absent. */
  function OrEmpty(details: Json): Json
  {
    if details.Null? then Object(NoFields) else details
  }

  /** No secret-named key, at any depth, still carries a value, and no text is longer than the limit plus the mark. */
  ghost predicate Clean(value: Json)
  {
    match value
    case Object(fields) => CleanFields(fields)
    case List(items) => CleanItems(items)
    case Text(s) => |s| <= TEXT_LIMIT + 1
    case _ => true
  }

  ghost predicate CleanItems(items: Items)
  {
    items.Item? ==> Clean(items.head) && CleanItems(items.tail)
  }

  ghost predicate CleanFields(fields: Fields)
  {
    fields.Field? ==>
      && (if IsSensitive(fields.key) then fields.value == REDACTED else Clean(fields.value))
      && CleanFields(fields.rest)
  }

  lemma {:induction false} RedactCleans(value: Json)
    ensures Clean(Redact(value))
    ensures Redact(Redact(value)) == Redact(value)
  {
    match value
    case Object(fields) => RedactFieldsCleans(fields);
    case List(items) => RedactItemsCleans(items);
    case Text(s) =>
      if |s| > TEXT_LIMIT {
        assert (s[..TEXT_LIMIT] + "\U{2026}")[..TEXT_LIMIT] == s[..TEXT_LIMIT];
      }
    case _ =>
  }

  lemma {:induction false} RedactItemsCleans(items: Items)
    ensures CleanItems(RedactItems(items)) && RedactItems(RedactItems(items)) == RedactItems(items)
  {
    if items.Item? {
      RedactCleans(items.head);
      RedactItemsCleans(items.tail);
    }
  }

  lemma {:induction false} RedactFieldsCleans(fields: Fields)
    ensures CleanFields(RedactFields(fields)) && RedactFields(RedactFields(fields)) == RedactFields(fields)
  {
    if fields.Field? {
      RedactCleans(fields.value);
      RedactFieldsCleans(fields.rest);
    }
  }

  // ----- redaction place by place

  function NthItem(items: Items, i: nat): Option<Json>
  {
    match items
    case NoItems => None
    case Item(head, tail) => if i == 0 then Some(head) else NthItem(tail, i - 1)
  }

  function NthField(fields: Fields, i: nat): Option<(string, Json)>
  {
    match fields
    case NoFields => None
    case Field(key, value, rest) => if i == 0 then Some((key, value)) else NthField(rest, i - 1)
  }

  /** The value at a place: a number picks an item of a list or a field of an object. */
  function At(value: Json, place: seq<nat>): Option<Json>
    decreases |place|
  {
    if place == [] then Some(value) else
      match value
      case Object(fields) =>
        var field := NthField(fields, place[0]);
        if field.None? then None else At(field.value.1, place[1..])
      case List(items) =>
        var item := NthItem(items, place[0]);
        if item.None? then None else At(item.value, place[1..])
      case _ => None
  }

  /** The keys that lead to a place, outermost first. */
  function KeysTo(value: Json, place: seq<nat>): seq<string>
    requires At(value, place).Some?
    decreases |place|
  {
    if place == [] then [] else
      match value
      case Object(fields) =>
        var field := NthField(fields, place[0]).value;
        [field.0] + KeysTo(field.1, place[1..])
      case List(items) => KeysTo(NthItem(items, place[0]).value, place[1..])
  }

  ghost predicate Secret(keys: seq<string>) { exists i :: 0 <= i < |keys| && IsSensitive(keys[i]) }

  /** What may stand in place of a value under no secret key: a text cut to the limit and marked, the same scalar, or
      an object or list again. */
  predicate Abridged(before: Json, after: Json)
  {
    match before
    case Text(s) => after == if |s| > 2000 then Text(s[..2000] + "\U{2026}") else before
    case Object(_) => after.Object?
    case List(_) => after.List?
    case _ => after == before
  }

  lemma {:induction false} RedactedItem(items: Items, i: nat)
    ensures var item := NthItem(items, i);
            NthItem(RedactItems(items), i) == if item.Some? then Some(Redact(item.value)) else None
  {
    if items.Item? && i > 0 { RedactedItem(items.tail, i - 1); }
  }

  lemma {:induction false} RedactedField(fields: Fields, i: nat)
    ensures var field := NthField(fields, i);
            NthField(RedactFields(fields), i) ==
            if field.None? then None
            else Some((field.value.0, if IsSensitive(field.value.0) then REDACTED else Redact(field.value.1)))
  {
    if fields.Field? && i > 0 { RedactedField(fields.rest, i - 1); }
  }

  lemma SecretStep(key: string, keys: seq<string>)
    ensures Secret([key] + keys) <==> IsSensitive(key) || Secret(keys)
  {
    assert ([key] + keys)[0] == key;
    assert forall i :: 0 <= i < |keys| ==> ([key] + keys)[i + 1] == keys[i];
  }

  /** Redaction adds no place, keeps every place under no secret key, abridged and under the same keys, and of what is
      under a secret key it keeps the mark alone. */
  lemma {:induction false} RedactedAt(value: Json, place: seq<nat>)
    ensures var before, after := At(value, place), At(Redact(value), place);
            && (after.Some? ==> before.Some? && KeysTo(Redact(value), place) == KeysTo(value, place))
            && (before.Some? && !Secret(KeysTo(value, place)) ==> after.Some? && Abridged(before.value, after.value))
            && (after.Some? && Secret(KeysTo(value, place)) ==> after.value == Text("[REDACTED]"))
    decreases |place|
  {
    if place != [] {
      match value
      case Object(fields) =>
        RedactedField(fields, place[0]);
        var field := NthField(fields, place[0]);
        if field.Some? {
          RedactedAt(field.value.1, place[1..]);
          if At(field.value.1, place[1..]).Some? { SecretStep(field.value.0, KeysTo(field.value.1, place[1..])); }
          if IsSensitive(field.value.0) && At(Redact(value), place).Some? {
            assert At(Redact(value), place) == At(REDACTED, place[1..]);
          }
        }
      case List(items) =>
        RedactedItem(items, place[0]);
        if NthItem(items, place[0]).Some? { RedactedAt(NthItem(items, place[0]).value, place[1..]); }
      case _ =>
    }
  }

  /** No secret key at any depth, and no text over the limit. */
  ghost predicate Harmless(value: Json)
  {
    match value
    case Object(fields) => HarmlessFields(fields)
    case List(items) => HarmlessItems(items)
    case Text(s) => |s| <= TEXT_LIMIT
    case _ => true
  }

  ghost predicate HarmlessItems(items: Items) { items.Item? ==> Harmless(items.head) && HarmlessItems(items.tail) }

  ghost predicate HarmlessFields(fields: Fields)
  {
    fields.Field? ==> !IsSensitive(fields.key) && Harmless(fields.value) && HarmlessFields(fields.rest)
  }

  /** Details with nothing to hide or cut are stored as they are. */
  lemma {:induction false} HarmlessIsKept(value: Json)
    requires Harmless(value)
    ensures Redact(value) == value
  {
    match value
    case Object(fields) => HarmlessFieldsAreKept(fields);
    case List(items) => HarmlessItemsAreKept(items);
    case _ =>
  }

  lemma {:induction false} HarmlessItemsAreKept(items: Items)
    requires HarmlessItems(items)
    ensures RedactItems(items) == items
  {
    if items.Item? {
      HarmlessIsKept(items.head);
      HarmlessItemsAreKept(items.tail);
    }
  }

  lemma {:induction false} HarmlessFieldsAreKept(fields: Fields)
    requires HarmlessFields(fields)
    ensures RedactFields(fields) == fields
  {
    if fields.Field? {
      HarmlessIsKept(fields.value);
      HarmlessFieldsAreKept(fields.rest);
    }
  }

  /** A key is secret exactly when, in lower case, it has one of the listed words in it. */
  lemma SensitiveIff(key: string)
    ensures IsSensitive(key) <==>
            exists i :: 0 <= i < |SENSITIVE_KEYS| && T.HasPart(T.Lower(key), SENSITIVE_KEYS[i])
  {
    forall i | 0 <= i < |SENSITIVE_KEYS|
      ensures T.Contains(T.Lower(key), SENSITIVE_KEYS[i]) <==> T.HasPart(T.Lower(key), SENSITIVE_KEYS[i])
    {
      T.ContainsIff(T.Lower(key), SENSITIVE_KEYS[i]);
    }
  }

  /** The details that are hashed when an entry is written are the ones the verifier hashes later. */
  lemma StoredDetailsAreHashedDetails(details: Json)
    ensures OrEmpty(Redact(OrEmpty(details))) == Redact(OrEmpty(details))
  {
  }
}
