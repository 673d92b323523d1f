/** The hooks.json editor: values may be commands or URLs only (hooks.rs). Parsing JSON
    text is an arbitrary function, the parameter parse. */
module Hooks {
  import opened Basics
  import opened Text

  datatype Value =
    | Null
    | Bool(b: bool)
    | Number(text: string)
    | Str(s: string)
    | Array(items: seq<Value>)
    | Object(entries: seq<Entry>)

  datatype Entry = Entry(key: string, value: Value)

  datatype HooksError = Invalid | Forbidden | Io

  const FORBIDDEN_KEYS: seq<string> :=
    ["secret", "token", "password", "pat", "hook-secret", "hook_secret", "hooksecret"]

  predicate IsForbiddenKey(key: string) {
    ToAsciiLowercase(key) in FORBIDDEN_KEYS
  }

  /** None when the value is acceptable, else the error that ends the check. */
  function CheckValue(value: Value): Option<HooksError> {
    match value
    case Null => None
    case Str(_) => None
    case Array(items) => CheckItems(items)
    case Object(entries) => CheckEntries(entries)
    case _ => Some(Invalid)
  }

  function CheckItems(items: seq<Value>): Option<HooksError> {
    if items == [] then None
    else
      var first := CheckValue(items[0]);
      if first.Some? then first else CheckItems(items[1..])
  }

  function CheckEntries(entries: seq<Entry>): Option<HooksError> {
    if entries == [] then None
    else
      var item := entries[0].value;
      if IsForbiddenKey(entries[0].key) then Some(Forbidden)
      else
        var first :=
          match item
          case Str(_) => None
          case Null => None
          case Object(_) => CheckValue(item)
          case Array(_) => CheckValue(item)
          case _ => Some(Invalid);
        if first.Some? then first else CheckEntries(entries[1..])
  }

  // ------------------------------------------------------------ all offences

  /** Every offence of a value, in the order of the traversal. */
  function Offences(value: Value): seq<HooksError> {
    match value
    case Null => []
    case Str(_) => []
    case Bool(_) => [Invalid]
    case Number(_) => [Invalid]
    case Array(items) => ItemOffences(items)
    case Object(entries) => EntryOffences(entries)
  }

  function ItemOffences(items: seq<Value>): seq<HooksError> {
    if items == [] then [] else Offences(items[0]) + ItemOffences(items[1..])
  }

  function EntryOffences(entries: seq<Entry>): seq<HooksError> {
    if entries == [] then []
    else
      (if IsForbiddenKey(entries[0].key) then [Forbidden] else [])
        + Offences(entries[0].value)
        + EntryOffences(entries[1..])
  }

  function First(offences: seq<HooksError>): Option<HooksError> {
    if offences == [] then None else Some(offences[0])
  }

  /** The check reports the first offence in traversal order. */
  lemma {:induction false} CheckReportsFirstOffence(value: Value)
    ensures CheckValue(value) == First(Offences(value))
    decreases value, 0
  {
    match value {
      case Array(items) => ItemsReportFirst(items);
      case Object(entries) => EntriesReportFirst(entries);
      case _ =>
    }
  }

  lemma {:induction false} ItemsReportFirst(items: seq<Value>)
    ensures CheckItems(items) == First(ItemOffences(items))
    decreases items, 1
  {
    if items != [] {
      CheckReportsFirstOffence(items[0]);
      ItemsReportFirst(items[1..]);
    }
  }

  lemma {:induction false} EntriesReportFirst(entries: seq<Entry>)
    ensures CheckEntries(entries) == First(EntryOffences(entries))
    decreases entries, 1
  {
    if entries != [] {
      CheckReportsFirstOffence(entries[0].value);
      EntriesReportFirst(entries[1..]);
    }
  }

  /** An entry is refused for its key, or else for its value. */
  function EntryError(entry: Entry): Option<HooksError> {
    if IsForbiddenKey(entry.key) then Some(Forbidden) else CheckValue(entry.value)
  }

  /** The error at position i is e, and none comes before it. */
  ghost predicate FirstError(errors: seq<Option<HooksError>>, e: Option<HooksError>) {
    if e.None? then forall i :: 0 <= i < |errors| ==> errors[i] == None
    else exists i :: 0 <= i < |errors| && errors[i] == e && forall j :: 0 <= j < i ==> errors[j] == None
  }

  function ItemErrors(items: seq<Value>): seq<Option<HooksError>> {
    seq(|items|, i requires 0 <= i < |items| => CheckValue(items[i]))
  }

  function EntryErrors(entries: seq<Entry>): seq<Option<HooksError>> {
    seq(|entries|, i requires 0 <= i < |entries| => EntryError(entries[i]))
  }

  lemma FirstErrorStep(errors: seq<Option<HooksError>>, e: Option<HooksError>)
    requires errors != [] && FirstError(errors[1..], e)
    ensures FirstError(errors, if errors[0].Some? then errors[0] else e)
  {
    if errors[0].None? && e.Some? {
      var rest := errors[1..];
      var i :| 0 <= i < |rest| && rest[i] == e && forall j :: 0 <= j < i ==> rest[j] == None;
      assert errors[i + 1] == e && forall j :: 0 < j < i + 1 ==> errors[j] == rest[j - 1];
    }
    if errors[0].None? && e.None? { assert forall j :: 0 < j < |errors| ==> errors[j] == errors[1..][j - 1]; }
  }

  lemma {:induction false} ItemsStopAtFirst(items: seq<Value>)
    ensures FirstError(ItemErrors(items), CheckItems(items))
  {
    hide CheckValue;
    hide FirstError;
    if items == [] {
      NoErrors();
    } else {
      ItemsStopAtFirst(items[1..]);
      assert ItemErrors(items)[1..] == ItemErrors(items[1..]);
      FirstErrorStep(ItemErrors(items), CheckItems(items[1..]));
    }
  }

  lemma NoErrors()
    ensures FirstError([], None)
  {
  }

  lemma {:induction false} EntriesStopAtFirst(entries: seq<Entry>)
    ensures FirstError(EntryErrors(entries), CheckEntries(entries))
  {
    hide FirstError;
    hide IsForbiddenKey;
    if entries == [] {
      NoErrors();
    } else {
      EntriesStopAtFirst(entries[1..]);
      assert EntryErrors(entries)[1..] == EntryErrors(entries[1..]);
      FirstErrorStep(EntryErrors(entries), CheckEntries(entries[1..]));
    }
  }

  /** The check goes through items and entries from the first to the last, in an entry takes the key
      before the value, and ends with the first error; strings and nulls have none, other leaves are
      invalid. */
  lemma CheckStopsAtFirst(v: Value)
    ensures v.Array? ==> FirstError(ItemErrors(v.items), CheckValue(v))
    ensures v.Object? ==> FirstError(EntryErrors(v.entries), CheckValue(v))
    ensures v.Null? || v.Str? ==> CheckValue(v) == None
    ensures v.Bool? || v.Number? ==> CheckValue(v) == Some(Invalid)
  {
    hide FirstError;
    if v.Array? { ItemsStopAtFirst(v.items); }
    if v.Object? { EntriesStopAtFirst(v.entries); }
  }

  // ------------------------------------------------------------ what is accepted

  /** w is v or lies somewhere inside it. */
  ghost predicate Within(v: Value, w: Value) {
    || v == w
    || (v.Array? && exists item :: item in v.items && Within(item, w))
    || (v.Object? && exists e :: e in v.entries && Within(e.value, w))
  }

  predicate Scalar(v: Value) {
    v.Bool? || v.Number?
  }

  ghost predicate HasForbiddenKey(v: Value) {
    v.Object? && exists e :: e in v.entries && IsForbiddenKey(e.key)
  }

  ghost predicate Clean(v: Value) {
    forall w :: Within(v, w) ==> !Scalar(w) && !HasForbiddenKey(w)
  }

  lemma CleanParts(v: Value)
    ensures v.Array? ==> (Clean(v) <==> forall item :: item in v.items ==> Clean(item))
    ensures v.Object? ==> (Clean(v) <==> forall e :: e in v.entries ==> !IsForbiddenKey(e.key) && Clean(e.value))
  {
    if v.Array? && Clean(v) {
      forall item, w | item in v.items && Within(item, w) ensures !Scalar(w) && !HasForbiddenKey(w) {
        assert Within(v, w);
      }
    }
    if v.Object? && Clean(v) {
      assert Within(v, v);
      forall e, w | e in v.entries && Within(e.value, w) ensures !Scalar(w) && !HasForbiddenKey(w) {
        assert Within(v, w);
      }
    }
  }

  /** A value is accepted exactly when no object at any depth has a forbidden key and
      every leaf is a string or null. */
  lemma {:induction false} AcceptedIffClean(value: Value)
    ensures CheckValue(value) == None <==> Clean(value)
    decreases value, 0
  {
    CleanParts(value);
    match value {
      case Array(items) => ItemsAcceptedIffClean(items);
      case Object(entries) => EntriesAcceptedIffClean(entries);
      case _ => assert Within(value, value);
    }
  }

  lemma {:induction false} ItemsAcceptedIffClean(items: seq<Value>)
    ensures CheckItems(items) == None <==> forall item :: item in items ==> Clean(item)
    decreases items, 1
  {
    if items != [] {
      assert items == [items[0]] + items[1..];
      AcceptedIffClean(items[0]);
      ItemsAcceptedIffClean(items[1..]);
    }
  }

  lemma {:induction false} EntriesAcceptedIffClean(entries: seq<Entry>)
    ensures CheckEntries(entries) == None <==> forall e :: e in entries ==> !IsForbiddenKey(e.key) && Clean(e.value)
    decreases entries, 1
  {
    if entries != [] {
      assert entries == [entries[0]] + entries[1..];
      AcceptedIffClean(entries[0].value);
      EntriesAcceptedIffClean(entries[1..]);
    }
  }

  lemma ForbiddenIgnoresCase(a: string, b: string)
    requires SameIgnoringCase(a, b)
    ensures IsForbiddenKey(a) <==> IsForbiddenKey(b)
  {
    LowercaseIff(a, b);
  }

  /** A key is forbidden exactly when it spells one of these words in some case. */
  lemma ForbiddenIffSpelled(key: string)
    ensures IsForbiddenKey(key) <==>
            || SameIgnoringCase(key, "secret") || SameIgnoringCase(key, "token") || SameIgnoringCase(key, "password")
            || SameIgnoringCase(key, "pat") || SameIgnoringCase(key, "hook-secret")
            || SameIgnoringCase(key, "hook_secret") || SameIgnoringCase(key, "hooksecret")
  {
    hide SameIgnoringCase;
    forall word | word in FORBIDDEN_KEYS ensures SameIgnoringCase(key, word) <==> ToAsciiLowercase(key) == word {
      LowercaseIff(key, word);
      LowercaseWord(word);
    }
  }

  lemma LowercaseWord(word: string)
    requires word in FORBIDDEN_KEYS
    ensures ToAsciiLowercase(word) == word
  {
    assert forall k :: 0 <= k < |word| ==> Lower(word[k]) == word[k];
  }

  // ------------------------------------------------------------ the file

  function ValidateHooksJson(text: string, parse: string -> Option<Value>): Option<HooksError> {
    var trimmed := Trim(text);
    if trimmed == "" then None
    else
      match parse(trimmed)
      case None => Some(Invalid)
      case Some(value) => CheckValue(value)
  }

  function Payload(text: string): string {
    if Trim(text) == "" then "{}\n" else text
  }

  /** How the file system takes a write: done, or failed with the file left in some state. */
  datatype Write = Written | Failed(left: Option<string>)

  class HooksFile {
    var content: Option<string>

    /** Validate, then write. */
    method Save(text: string, parse: string -> Option<Value>, directoryMade: bool, write: Write)
      returns (error: Option<HooksError>)
      modifies this
      ensures ValidateHooksJson(text, parse).Some? ==>
                content == old(content) && error == ValidateHooksJson(text, parse)
      ensures ValidateHooksJson(text, parse) == None ==>
                && (error == None <==> directoryMade && write.Written?)
                && (error == None ==> content == Some(Payload(text)))
                && (error != None ==> error == Some(Io))
                && (!directoryMade ==> content == old(content))
    {
      error := ValidateHooksJson(text, parse);
      if error.Some? { return; }
      if !directoryMade { return Some(Io); }
      match write {
        case Written => content := Some(Payload(text));
        case Failed(left) => content := left; error := Some(Io);
      }
    }
  }

  /** What a successful save leaves behind passes validation when it is loaded again. */
  lemma SavedFileValidates(text: string, parse: string -> Option<Value>)
    requires parse("{}") == Some(Object([]))
    requires ValidateHooksJson(text, parse) == None
    ensures ValidateHooksJson(Payload(text), parse) == None
  {
    hide CheckValue;
    hide Trim;
    if Trim(text) == "" {
      TrimOfEmptyObject();
      EmptyObjectIsAccepted();
    }
  }

  lemma EmptyObjectIsAccepted()
    ensures CheckValue(Object([])) == None
  {
  }

  lemma TrimOfEmptyObject()
    ensures Trim("{}\n") == "{}"
  {
    var s := "{}\n";
    assert IsSpace('\n') && !IsSpace('{') && !IsSpace('}');
    assert TrimStart(s) == s;
    assert s[..2] == "{}" && Last(s) == '\n';
    assert TrimEnd("{}") == "{}";
    assert TrimEnd(s) == TrimEnd(s[..2]);
  }
}
