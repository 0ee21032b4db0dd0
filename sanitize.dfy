/**
 * `backend/middleware/sanitize.js`: every string in the parts of a request the
 * middleware is given loses its NUL characters and its surrounding whitespace;
 * arrays and objects are rebuilt around the sanitized values, everything else
 * passes through. The server mounts it with `app.use` before any router has
 * matched a path, so the body and the query are sanitized, while `req.params` is
 * still empty there: route parameters such as `:id` reach the handlers as sent.
 */
module Sanitize {
  import opened Text

  /** A parsed request value; `Undefined` is a part the request does not have. */
  datatype Json =
    | Str(s: string)
    | Num(n: int)
    | Bool(b: bool)
    | Null
    | Undefined
    | Arr(items: seq<Json>)
    | Obj(members: seq<Member>)

  /** One own property of an object, in `Object.entries` order. */
  datatype Member = Member(key: string, value: Json)

  /** What `if (value)` accepts: everything but `undefined`, `null`, `false`, `0` and `''`. */
  predicate JsTruthy(v: Json) {
    match v
    case Str(s) => s != ""
    case Num(n) => n != 0
    case Bool(b) => b
    case Null => false
    case Undefined => false
    case _ => true
  }

  /** `replace(/\0/g, '').trim()`. */
  function CleanString(s: string): (r: string)
    ensures '\0' !in r && Trimmed(r)
  {
    var t := RemoveChar(s, '\0');
    var r := Trim(t);
    assert forall i :: 0 <= i < |r| ==> r[i] in t;
    r
  }

  /** A string the sanitizer would leave alone is left alone. */
  lemma CleanStringFixed(s: string)
    requires '\0' !in s && Trimmed(s)
    ensures CleanString(s) == s
  {
    RemoveCharAbsent(s, '\0');
    TrimOfTrimmed(s);
  }

  /** `sanitizeValue`. */
  function SanitizeValue(v: Json): Json
    decreases v
  {
    match v
    case Str(s) => Str(CleanString(s))
    case Arr(items) => Arr(SanitizeItems(items))
    case Obj(members) => Obj(SanitizeMembers(members))
    case _ => v
  }

  /** `value.map(sanitizeValue)`. */
  function SanitizeItems(items: seq<Json>): (r: seq<Json>)
    ensures |r| == |items|
    decreases items
  {
    if items == [] then [] else [SanitizeValue(items[0])] + SanitizeItems(items[1..])
  }

  /** The `reduce` over `Object.entries`: each key kept, in order, with its value sanitized. */
  function SanitizeMembers(members: seq<Member>): (r: seq<Member>)
    ensures |r| == |members|
    ensures forall i :: 0 <= i < |r| ==> r[i].key == members[i].key
    decreases members
  {
    if members == [] then []
    else [Member(members[0].key, SanitizeValue(members[0].value))] + SanitizeMembers(members[1..])
  }

  /** Every string inside is free of NUL and of surrounding whitespace. */
  predicate Clean(v: Json)
    decreases v
  {
    match v
    case Str(s) => '\0' !in s && Trimmed(s)
    case Arr(items) => forall i :: 0 <= i < |items| ==> Clean(items[i])
    case Obj(members) => forall i :: 0 <= i < |members| ==> Clean(members[i].value)
    case _ => true
  }

  /** Same kind of value, same lengths, same keys in the same order, all the way down; strings may differ. */
  predicate SameShape(a: Json, b: Json)
    decreases a
  {
    match a
    case Str(_) => b.Str?
    case Arr(items) =>
      b.Arr? && |b.items| == |items| && forall i :: 0 <= i < |items| ==> SameShape(items[i], b.items[i])
    case Obj(members) =>
      && b.Obj? && |b.members| == |members|
      && forall i :: 0 <= i < |members| ==> b.members[i].key == members[i].key && SameShape(members[i].value, b.members[i].value)
    case _ => b == a
  }

  /** The sanitized value is clean and has the shape of the original. */
  lemma {:induction false} SanitizeCleans(v: Json)
    ensures Clean(SanitizeValue(v)) && SameShape(v, SanitizeValue(v))
    decreases v, 1
  {
    match v
    case Arr(items) => SanitizeItemsCleans(items);
    case Obj(members) => SanitizeMembersCleans(members);
    case _ =>
  }

  lemma {:induction false} SanitizeItemsCleans(items: seq<Json>)
    ensures forall i :: 0 <= i < |items| ==>
      Clean(SanitizeItems(items)[i]) && SameShape(items[i], SanitizeItems(items)[i])
    decreases items, 0
  {
    if items != [] {
      SanitizeCleans(items[0]);
      SanitizeItemsCleans(items[1..]);
      var r := SanitizeItems(items);
      forall i | 0 <= i < |items|
        ensures Clean(r[i]) && SameShape(items[i], r[i])
      {
        if i > 0 {
          assert r[i] == SanitizeItems(items[1..])[i - 1];
          assert items[i] == items[1..][i - 1];
        }
      }
    }
  }

  lemma {:induction false} SanitizeMembersCleans(members: seq<Member>)
    ensures forall i :: 0 <= i < |members| ==>
      Clean(SanitizeMembers(members)[i].value) && SameShape(members[i].value, SanitizeMembers(members)[i].value)
    decreases members, 0
  {
    if members != [] {
      SanitizeCleans(members[0].value);
      SanitizeMembersCleans(members[1..]);
      var r := SanitizeMembers(members);
      forall i | 0 <= i < |members|
        ensures Clean(r[i].value) && SameShape(members[i].value, r[i].value)
      {
        if i > 0 {
          assert r[i] == SanitizeMembers(members[1..])[i - 1];
          assert members[i] == members[1..][i - 1];
        }
      }
    }
  }

  /** A clean value is a fixed point, so sanitizing twice is sanitizing once. */
  lemma {:induction false} SanitizeClean(v: Json)
    requires Clean(v)
    ensures SanitizeValue(v) == v
    decreases v, 1
  {
    match v
    case Str(s) => CleanStringFixed(s);
    case Arr(items) => SanitizeItemsClean(items);
    case Obj(members) => SanitizeMembersClean(members);
    case _ =>
  }

  lemma {:induction false} SanitizeItemsClean(items: seq<Json>)
    requires forall i :: 0 <= i < |items| ==> Clean(items[i])
    ensures SanitizeItems(items) == items
    decreases items, 0
  {
    if items != [] {
      SanitizeClean(items[0]);
      SanitizeItemsClean(items[1..]);
      assert [items[0]] + items[1..] == items;
    }
  }

  lemma {:induction false} SanitizeMembersClean(members: seq<Member>)
    requires forall i :: 0 <= i < |members| ==> Clean(members[i].value)
    ensures SanitizeMembers(members) == members
    decreases members, 0
  {
    if members != [] {
      SanitizeClean(members[0].value);
      SanitizeMembersClean(members[1..]);
      assert [members[0]] + members[1..] == members;
    }
  }

  lemma SanitizeIdempotent(v: Json)
    ensures SanitizeValue(SanitizeValue(v)) == SanitizeValue(v)
  {
    SanitizeCleans(v);
    SanitizeClean(SanitizeValue(v));
  }

  /** The falsy values the middleware skips are ones sanitizing would not change. */
  lemma FalsyIsClean(v: Json)
    requires !JsTruthy(v)
    ensures SanitizeValue(v) == v
  {
    if v.Str? {
      CleanStringFixed(v.s);
    }
  }

  /** The three parts of a request the middleware rewrites. */
  class Request {
    var body: Json
    var query: Json
    var params: Json

    constructor (body: Json, query: Json, params: Json)
      ensures this.body == body && this.query == query && this.params == params
    {
      this.body := body;
      this.query := query;
      this.params := params;
    }
  }

  /** `after` is `before` sanitized: clean, and of the same shape. */
  predicate Sanitized(before: Json, after: Json) {
    after == SanitizeValue(before) && Clean(after) && SameShape(before, after)
  }

  /** `if (part) part = sanitizeValue(part)` sanitizes the part whether or not it is truthy. */
  lemma SanitizedPart(v: Json)
    ensures Sanitized(v, if JsTruthy(v) then SanitizeValue(v) else v)
  {
    SanitizeCleans(v);
    if !JsTruthy(v) {
      FalsyIsClean(v);
    }
  }

  /**
   * `sanitizeRequest`: each truthy part replaced by its sanitized value, after
   * which every part is clean, keeps its shape, and the request goes on to the
   * next handler. Mounted at the application level, it sees the parameters
   * before any route has filled them in.
   */
  method SanitizeRequest(req: Request)
    modifies req
    ensures Sanitized(old(req.body), req.body)
    ensures Sanitized(old(req.query), req.query)
    ensures Sanitized(old(req.params), req.params)
  {
    SanitizedPart(req.body);
    SanitizedPart(req.query);
    SanitizedPart(req.params);
    if JsTruthy(req.body) {
      req.body := SanitizeValue(req.body);
    }
    if JsTruthy(req.query) {
      req.query := SanitizeValue(req.query);
    }
    if JsTruthy(req.params) {
      req.params := SanitizeValue(req.params);
    }
  }
}
