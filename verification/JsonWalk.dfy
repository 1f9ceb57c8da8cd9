/**
 The search through a decoded YouTube answer (internal/downloader/youtube_search.go): an explicit stack of nodes,
 compared with a recursive walk.
 */
module JsonWalk {
  import Durations

  // A decoded JSON value.  An absent key and a null read alike.
  datatype Json =
    | Null
    | Bool(b: bool)
    | Num(n: real)
    | Str(s: string)
    | Arr(items: seq<Json>)
    | Obj(fields: map<string, Json>)

  datatype Hop = Key(name: string) | Index(i: int)

  function Field(v: Json, name: string): Json {
    if v.Obj? && name in v.fields then v.fields[name] else Null
  }

  function Dig(v: Json, path: seq<Hop>): Json
    decreases |path|
  {
    if path == [] then v else
    match path[0]
    case Key(name) => Dig(Field(v, name), path[1..])
    case Index(i) => Dig(if v.Arr? && 0 <= i < |v.items| then v.items[i] else Null, path[1..])
  }

  function Text(v: Json): string {
    if v.Str? then v.s else ""
  }

  lemma {:induction false} DigNull(path: seq<Hop>)
    ensures Dig(Null, path) == Null
    decreases |path|
  {
    if path != [] {
      DigNull(path[1..]);
    }
  }

  method FollowPath(v: Json, path: seq<Hop>) returns (cur: Json)
    ensures cur == Dig(v, path)
  {
    cur := v;
    for i := 0 to |path|
      invariant Dig(cur, path[i..]) == Dig(v, path)
    {
      DigNull(path[i..]);
      DigNull(path[i..][1..]);
      assert path[i..][1..] == path[i + 1..];
      match path[i] {
        case Key(name) =>
          if !cur.Obj? {
            return Null;
          }
          cur := if name in cur.fields then cur.fields[name] else Null;
        case Index(k) =>
          if !cur.Arr? || k < 0 || k >= |cur.items| {
            return Null;
          }
          cur := cur.items[k];
      }
    }
  }

  // ----- one renderer -----

  const YOUTUBE := "youtube"
  const WATCH_URL := "https://www.youtube.com/watch?v="

  datatype Track = Track(id: string, url: string, title: string, thumbnail: string, duration: int, views: string,
    channel: string, platform: string)

  predicate LiveBadge(badge: Json) {
    Field(Field(badge, "metadataBadgeRenderer"), "style") == Str("BADGE_STYLE_TYPE_LIVE_NOW")
  }

  predicate Live(vr: Json) {
    var badges := Field(vr, "badges");
    badges.Arr? && exists i :: 0 <= i < |badges.items| && LiveBadge(badges.items[i])
  }

  method IsLiveNow(vr: Json) returns (live: bool)
    ensures live == Live(vr)
  {
    var badges := Field(vr, "badges");
    if !badges.Arr? {
      return false;
    }
    for i := 0 to |badges.items|
      invariant forall k :: 0 <= k < i ==> !LiveBadge(badges.items[k])
    {
      var meta := Field(badges.items[i], "metadataBadgeRenderer");
      if !meta.Obj? {
        continue;
      }
      if Text(Field(meta, "style")) == "BADGE_STYLE_TYPE_LIVE_NOW" {
        return true;
      }
    }
    return false;
  }

  const TITLE := [Key("title"), Key("runs"), Index(0), Key("text")]
  const LENGTH := [Key("lengthText"), Key("simpleText")]
  const THUMBNAIL := [Key("thumbnail"), Key("thumbnails"), Index(0), Key("url")]
  const VIEWS := [Key("viewCountText"), Key("simpleText")]
  const CHANNEL := [Key("ownerText"), Key("runs"), Index(0), Key("text")]

  predicate Eligible(vr: Json) {
    !Live(vr) && Text(Field(vr, "videoId")) != "" && Text(Dig(vr, TITLE)) != "" && Text(Dig(vr, LENGTH)) != ""
  }

  function TrackOf(vr: Json): Track {
    var id := Text(Field(vr, "videoId"));
    Track(id, WATCH_URL + id, Text(Dig(vr, TITLE)), Text(Dig(vr, THUMBNAIL)),
          Durations.Duration(Text(Dig(vr, LENGTH))), Text(Dig(vr, VIEWS)), Text(Dig(vr, CHANNEL)), YOUTUBE)
  }

  /** What one renderer contributes. */
  function Yield(vr: Json): seq<Track> {
    if Eligible(vr) then [TrackOf(vr)] else []
  }

  method ReadRenderer(vr: Json) returns (found: seq<Track>)
    ensures found == Yield(vr)
  {
    var live := IsLiveNow(vr);
    if live {
      return [];
    }
    var id := Text(Field(vr, "videoId"));
    var title := FollowPath(vr, TITLE);
    var length := FollowPath(vr, LENGTH);
    if id == "" || Text(title) == "" || Text(length) == "" {
      return [];
    }
    var thumbnail := FollowPath(vr, THUMBNAIL);
    var seconds := Durations.ParseDuration(Text(length));
    var views := FollowPath(vr, VIEWS);
    var channel := FollowPath(vr, CHANNEL);
    found := [Track(id, WATCH_URL + id, Text(title), Text(thumbnail), seconds, Text(views), Text(channel),
      YOUTUBE)];
  }

  // ----- the recursive walk -----

  predicate IsRenderer(j: Json) {
    Field(j, "videoRenderer").Obj?
  }

  /** The keys of an object in some order. */
  ghost predicate Order(ks: seq<string>, keys: set<string>) {
    (forall k :: k in ks <==> k in keys) && forall a, b :: 0 <= a < b < |ks| ==> ks[a] != ks[b]
  }

  /** `out` is what a pre-order walk of `j` yields: arrays in order, the children of an object in some order. */
  ghost predicate Walk(j: Json, out: seq<Track>)
    decreases j
  {
    match j
    case Arr(xs) => WalkItems(xs, out)
    case Obj(m) =>
      if IsRenderer(j) then out == Yield(m["videoRenderer"])
      else exists ks :: Order(ks, m.Keys) && WalkFields(j, ks, out)
    case _ => out == []
  }

  ghost predicate WalkItems(xs: seq<Json>, out: seq<Track>)
    decreases xs
  {
    if xs == [] then out == []
    else exists n :: 0 <= n <= |out| && Walk(xs[0], out[..n]) && WalkItems(xs[1..], out[n..])
  }

  ghost predicate WalkFields(j: Json, ks: seq<string>, out: seq<Track>)
    requires j.Obj? && forall k :: k in ks ==> k in j.fields
    decreases j, |ks|
  {
    if ks == [] then out == []
    else exists n :: 0 <= n <= |out| && Walk(j.fields[ks[0]], out[..n]) && WalkFields(j, ks[1..], out[n..])
  }

  /** The walks of several nodes, one after the other. */
  ghost predicate WalkAll(js: seq<Json>, out: seq<Track>)
    decreases |js|
  {
    if js == [] then out == []
    else exists n :: 0 <= n <= |out| && Walk(js[0], out[..n]) && WalkAll(js[1..], out[n..])
  }

  function Children(m: map<string, Json>, ks: seq<string>): (r: seq<Json>)
    requires forall k :: k in ks ==> k in m
    ensures |r| == |ks|
  {
    if ks == [] then [] else [m[ks[0]]] + Children(m, ks[1..])
  }

  lemma {:induction false} ItemsAll(xs: seq<Json>, out: seq<Track>)
    ensures WalkItems(xs, out) <==> WalkAll(xs, out)
    decreases |xs|
  {
    if xs != [] {
      forall n | 0 <= n <= |out|
        ensures WalkItems(xs[1..], out[n..]) <==> WalkAll(xs[1..], out[n..])
      {
        ItemsAll(xs[1..], out[n..]);
      }
    }
  }

  lemma {:induction false} FieldsAll(j: Json, ks: seq<string>, out: seq<Track>)
    requires j.Obj? && forall k :: k in ks ==> k in j.fields
    ensures WalkFields(j, ks, out) <==> WalkAll(Children(j.fields, ks), out)
    decreases |ks|
  {
    if ks != [] {
      assert Children(j.fields, ks)[1..] == Children(j.fields, ks[1..]);
      forall n | 0 <= n <= |out|
        ensures WalkFields(j, ks[1..], out[n..]) <==> WalkAll(Children(j.fields, ks[1..]), out[n..])
      {
        FieldsAll(j, ks[1..], out[n..]);
      }
    }
  }

  lemma WalkCons(j: Json, js: seq<Json>, a: seq<Track>, b: seq<Track>)
    requires Walk(j, a) && WalkAll(js, b)
    ensures WalkAll([j] + js, a + b)
  {
    assert (a + b)[..|a|] == a && (a + b)[|a|..] == b && ([j] + js)[1..] == js;
  }

  lemma WalkUncons(j: Json, js: seq<Json>, out: seq<Track>) returns (a: seq<Track>, b: seq<Track>)
    requires WalkAll([j] + js, out)
    ensures out == a + b && Walk(j, a) && WalkAll(js, b)
  {
    assert ([j] + js)[1..] == js;
    var n :| 0 <= n <= |out| && Walk(j, out[..n]) && WalkAll(js, out[n..]);
    a, b := out[..n], out[n..];
  }

  lemma Regroup(a: seq<Track>, b: seq<Track>, c: seq<Track>)
    ensures a + (b + c) == a + b + c
  {
  }

  lemma Heads(js: seq<Json>, ks: seq<Json>)
    requires js != []
    ensures js + ks == [js[0]] + (js[1..] + ks) && [js[0]] + js[1..] == js
  {
  }

  /** Walking a list of nodes splits at any point. */
  lemma {:induction false} WalkSplit(js: seq<Json>, ks: seq<Json>, out: seq<Track>)
    returns (a: seq<Track>, b: seq<Track>)
    requires WalkAll(js + ks, out)
    ensures out == a + b && WalkAll(js, a) && WalkAll(ks, b)
    decreases |js|
  {
    if js == [] {
      assert js + ks == ks;
      a, b := [], out;
    } else {
      Heads(js, ks);
      var first, rest := WalkUncons(js[0], js[1..] + ks, out);
      a, b := WalkSplit(js[1..], ks, rest);
      WalkCons(js[0], js[1..], first, a);
      Regroup(first, a, b);
      a := first + a;
    }
  }

  /** What the current node and the nodes below it on the stack yield together. */
  lemma ExpandItems(xs: seq<Json>, js: seq<Json>, out: seq<Track>)
    requires WalkAll(xs + js, out)
    ensures WalkAll([Arr(xs)] + js, out)
  {
    var a, b := WalkSplit(xs, js, out);
    ItemsAll(xs, a);
    WalkCons(Arr(xs), js, a, b);
  }

  lemma ExpandFields(j: Json, ks: seq<string>, js: seq<Json>, out: seq<Track>)
    requires j.Obj? && !IsRenderer(j) && Order(ks, j.fields.Keys) && WalkAll(Children(j.fields, ks) + js, out)
    ensures WalkAll([j] + js, out)
  {
    var a, b := WalkSplit(Children(j.fields, ks), js, out);
    FieldsAll(j, ks, a);
    WalkCons(j, js, a, b);
  }

  // ----- every node has a walk, and its yield is settled up to order -----

  lemma {:induction false} Arrange(keys: set<string>) returns (ks: seq<string>)
    ensures Order(ks, keys)
    decreases |keys|
  {
    ks := [];
    if keys != {} {
      var k :| k in keys;
      ks := Arrange(keys - {k});
      ks := [k] + ks;
    }
  }

  lemma {:induction false} SomeWalk(j: Json) returns (out: seq<Track>)
    ensures Walk(j, out)
    decreases j
  {
    match j
    case Arr(xs) => out := SomeItems(xs);
    case Obj(m) =>
      if IsRenderer(j) {
        out := Yield(m["videoRenderer"]);
      } else {
        var ks := Arrange(m.Keys);
        out := SomeFields(j, ks);
      }
    case _ => out := [];
  }

  lemma {:induction false} SomeItems(xs: seq<Json>) returns (out: seq<Track>)
    ensures WalkItems(xs, out)
    decreases xs
  {
    if xs == [] {
      out := [];
    } else {
      var a := SomeWalk(xs[0]);
      var b := SomeItems(xs[1..]);
      out := a + b;
      assert out[..|a|] == a && out[|a|..] == b;
    }
  }

  lemma {:induction false} SomeFields(j: Json, ks: seq<string>) returns (out: seq<Track>)
    requires j.Obj? && forall k :: k in ks ==> k in j.fields
    ensures WalkFields(j, ks, out)
    decreases j, |ks|
  {
    if ks == [] {
      out := [];
    } else {
      var a := SomeWalk(j.fields[ks[0]]);
      var b := SomeFields(j, ks[1..]);
      out := a + b;
      assert out[..|a|] == a && out[|a|..] == b;
    }
  }

  /** All that `j` holds: the tracks of every eligible renderer not inside another renderer. */
  ghost function Holds(j: Json): multiset<Track>
    decreases j
  {
    match j
    case Arr(xs) => HoldsItems(xs)
    case Obj(m) => if IsRenderer(j) then multiset(Yield(m["videoRenderer"])) else HoldsFields(j, m.Keys)
    case _ => multiset{}
  }

  ghost function HoldsItems(xs: seq<Json>): multiset<Track>
    decreases xs
  {
    if xs == [] then multiset{} else Holds(xs[0]) + HoldsItems(xs[1..])
  }

  ghost function HoldsFields(j: Json, keys: set<string>): multiset<Track>
    requires j.Obj? && keys <= j.fields.Keys
    decreases j, |keys|
  {
    if keys == {} then multiset{} else
    var k :| k in keys;
    Holds(j.fields[k]) + HoldsFields(j, keys - {k})
  }

  lemma {:induction false} HoldsPick(j: Json, keys: set<string>, k: string)
    requires j.Obj? && keys <= j.fields.Keys && k in keys
    ensures HoldsFields(j, keys) == Holds(j.fields[k]) + HoldsFields(j, keys - {k})
    decreases |keys|
  {
    var c :| c in keys && HoldsFields(j, keys) == Holds(j.fields[c]) + HoldsFields(j, keys - {c});
    if c != k {
      HoldsPick(j, keys - {c}, k);
      HoldsPick(j, keys - {k}, c);
      assert keys - {c} - {k} == keys - {k} - {c};
    }
  }

  lemma Together(out: seq<Track>, n: nat)
    requires n <= |out|
    ensures multiset(out) == multiset(out[..n]) + multiset(out[n..])
  {
    assert out == out[..n] + out[n..];
  }

  /** Whatever order the objects are walked in, the same tracks come out. */
  lemma {:induction false} WalkYieldsAll(j: Json, out: seq<Track>)
    requires Walk(j, out)
    ensures multiset(out) == Holds(j)
    decreases j
  {
    match j
    case Arr(xs) => ItemsYieldAll(xs, out);
    case Obj(m) =>
      if !IsRenderer(j) {
        var ks :| Order(ks, m.Keys) && WalkFields(j, ks, out);
        FieldsYieldAll(j, ks, m.Keys, out);
      }
    case _ =>
  }

  lemma {:induction false} ItemsYieldAll(xs: seq<Json>, out: seq<Track>)
    requires WalkItems(xs, out)
    ensures multiset(out) == HoldsItems(xs)
    decreases xs
  {
    if xs != [] {
      var n :| 0 <= n <= |out| && Walk(xs[0], out[..n]) && WalkItems(xs[1..], out[n..]);
      WalkYieldsAll(xs[0], out[..n]);
      ItemsYieldAll(xs[1..], out[n..]);
      Together(out, n);
    }
  }

  lemma {:induction false} FieldsYieldAll(j: Json, ks: seq<string>, keys: set<string>, out: seq<Track>)
    requires j.Obj? && keys <= j.fields.Keys && Order(ks, keys) && WalkFields(j, ks, out)
    ensures multiset(out) == HoldsFields(j, keys)
    decreases j, |ks|
  {
    if ks == [] {
      assert keys == {};
    } else {
      var k := ks[0];
      var n :| 0 <= n <= |out| && Walk(j.fields[k], out[..n]) && WalkFields(j, ks[1..], out[n..]);
      WalkYieldsAll(j.fields[k], out[..n]);
      assert forall x :: x in ks <==> x == k || x in ks[1..];
      FieldsYieldAll(j, ks[1..], keys - {k}, out[n..]);
      HoldsPick(j, keys, k);
      Together(out, n);
    }
  }

  // ----- the size of what is left, for termination -----

  ghost function Size(j: Json): nat
    decreases j
  {
    match j
    case Arr(xs) => 1 + SizeItems(xs)
    case Obj(m) => 1 + SizeFields(j, m.Keys)
    case _ => 1
  }

  ghost function SizeItems(xs: seq<Json>): nat
    decreases xs
  {
    if xs == [] then 0 else Size(xs[0]) + SizeItems(xs[1..])
  }

  ghost function SizeFields(j: Json, keys: set<string>): nat
    requires j.Obj? && keys <= j.fields.Keys
    decreases j, |keys|
  {
    if keys == {} then 0 else
    var k :| k in keys;
    Size(j.fields[k]) + SizeFields(j, keys - {k})
  }

  lemma {:induction false} SizePick(j: Json, keys: set<string>, k: string)
    requires j.Obj? && keys <= j.fields.Keys && k in keys
    ensures SizeFields(j, keys) == Size(j.fields[k]) + SizeFields(j, keys - {k})
    decreases |keys|
  {
    var c :| c in keys && SizeFields(j, keys) == Size(j.fields[c]) + SizeFields(j, keys - {c});
    if c != k {
      SizePick(j, keys - {c}, k);
      SizePick(j, keys - {k}, c);
      assert keys - {c} - {k} == keys - {k} - {c};
    }
  }

  lemma {:induction false} SizeSplit(xs: seq<Json>, ys: seq<Json>)
    ensures SizeItems(xs + ys) == SizeItems(xs) + SizeItems(ys)
    decreases |xs|
  {
    if xs == [] {
      assert xs + ys == ys;
    } else {
      SizeSplit(xs[1..], ys);
      assert (xs + ys)[1..] == xs[1..] + ys;
    }
  }

  // ----- the stack -----

  /** The nodes on the stack in the order in which they will be popped. */
  function Pending(stack: seq<Json>): (r: seq<Json>)
    ensures |r| == |stack|
  {
    if stack == [] then [] else [stack[|stack| - 1]] + Pending(stack[..|stack| - 1])
  }

  lemma PendingPush(stack: seq<Json>, v: Json)
    ensures Pending(stack + [v]) == [v] + Pending(stack)
  {
    assert (stack + [v])[..|stack|] == stack;
  }

  lemma PushOne(r: seq<Json>, xs: seq<Json>, i: nat, below: seq<Json>)
    requires i < |xs| && Pending(r) == xs[i + 1..] + below
    ensures Pending(r + [xs[i]]) == xs[i..] + below
  {
    PendingPush(r, xs[i]);
    assert xs[i..] == [xs[i]] + xs[i + 1..];
    assert [xs[i]] + (xs[i + 1..] + below) == ([xs[i]] + xs[i + 1..]) + below;
  }

  method PushItems(stack: seq<Json>, xs: seq<Json>) returns (r: seq<Json>)
    ensures Pending(r) == xs + Pending(stack)
  {
    r := stack;
    for i := |xs| downto 0
      invariant Pending(r) == xs[i..] + Pending(stack)
    {
      PushOne(r, xs, i, Pending(stack));
      r := r + [xs[i]];
    }
    assert xs[0..] == xs;
  }

  lemma PushChild(r: seq<Json>, m: map<string, Json>, k: string, ks: seq<string>, below: seq<Json>)
    requires k in m && (forall x :: x in ks ==> x in m) && Pending(r) == Children(m, ks) + below
    ensures Pending(r + [m[k]]) == Children(m, [k] + ks) + below
    ensures SizeItems(Children(m, [k] + ks)) == Size(m[k]) + SizeItems(Children(m, ks))
  {
    PendingPush(r, m[k]);
    assert ([k] + ks)[1..] == ks;
    assert Children(m, [k] + ks) == [m[k]] + Children(m, ks);
    assert [m[k]] + (Children(m, ks) + below) == ([m[k]] + Children(m, ks)) + below;
    assert ([m[k]] + Children(m, ks))[1..] == Children(m, ks);
  }

  /** The children of an object, pushed in whatever order the map is iterated. */
  method PushFields(stack: seq<Json>, j: Json) returns (r: seq<Json>, ghost ks: seq<string>)
    requires j.Obj?
    ensures Order(ks, j.fields.Keys)
    ensures Pending(r) == Children(j.fields, ks) + Pending(stack)
    ensures SizeItems(Children(j.fields, ks)) == SizeFields(j, j.fields.Keys)
  {
    r, ks := stack, [];
    var rest := j.fields.Keys;
    while rest != {}
      invariant rest <= j.fields.Keys && Order(ks, j.fields.Keys - rest)
      invariant Pending(r) == Children(j.fields, ks) + Pending(stack)
      invariant SizeItems(Children(j.fields, ks)) + SizeFields(j, rest) == SizeFields(j, j.fields.Keys)
      decreases rest
    {
      var k :| k in rest;
      SizePick(j, rest, k);
      PushChild(r, j.fields, k, ks, Pending(stack));
      ks := [k] + ks;
      r := r + [j.fields[k]];
      rest := rest - {k};
    }
  }

  /** Whatever the nodes still to be popped yield completes `found` to a walk of `node`. */
  ghost predicate Leads(node: Json, found: seq<Track>, pending: seq<Json>) {
    forall more :: WalkAll(pending, more) ==> Walk(node, found + more)
  }

  lemma LeadsStart(node: Json)
    ensures Leads(node, [], [node])
  {
    forall more | WalkAll([node], more)
      ensures Walk(node, [] + more)
    {
      assert [node] + [] == [node];
      var a, b := WalkUncons(node, [], more);
      assert b == [] && a == [] + more;
    }
  }

  lemma LeadsTo(node: Json, found: seq<Track>, pending: seq<Json>, more: seq<Track>)
    requires Leads(node, found, pending) && WalkAll(pending, more)
    ensures Walk(node, found + more)
  {
  }

  lemma YieldLeadsTo(node: Json, found: seq<Track>, j: Json, js: seq<Json>, got: seq<Track>, more: seq<Track>)
    requires Leads(node, found, [j] + js) && Walk(j, got) && WalkAll(js, more)
    ensures Walk(node, found + got + more)
  {
    Regroup(found, got, more);
    WalkCons(j, js, got, more);
    LeadsTo(node, found, [j] + js, got + more);
  }

  lemma LeadsYield(node: Json, found: seq<Track>, j: Json, js: seq<Json>, got: seq<Track>)
    requires Leads(node, found, [j] + js) && Walk(j, got)
    ensures Leads(node, found + got, js)
  {
    forall more | WalkAll(js, more)
      ensures Walk(node, found + got + more)
    {
      YieldLeadsTo(node, found, j, js, got, more);
    }
  }

  lemma LeadsItems(node: Json, found: seq<Track>, xs: seq<Json>, js: seq<Json>)
    requires Leads(node, found, [Arr(xs)] + js)
    ensures Leads(node, found, xs + js)
  {
    forall more | WalkAll(xs + js, more)
      ensures Walk(node, found + more)
    {
      ExpandItems(xs, js, more);
    }
  }

  lemma LeadsFields(node: Json, found: seq<Track>, j: Json, ks: seq<string>, js: seq<Json>)
    requires j.Obj? && !IsRenderer(j) && Order(ks, j.fields.Keys) && Leads(node, found, [j] + js)
    ensures Leads(node, found, Children(j.fields, ks) + js)
  {
    forall more | WalkAll(Children(j.fields, ks) + js, more)
      ensures Walk(node, found + more)
    {
      ExpandFields(j, ks, js, more);
    }
  }

  lemma {:induction false} SomeWalks(js: seq<Json>) returns (out: seq<Track>)
    ensures WalkAll(js, out)
  {
    out := SomeItems(js);
    ItemsAll(js, out);
  }

  function First(out: seq<Track>, room: int): seq<Track> {
    if room <= 0 then [] else if |out| <= room then out else out[..room]
  }

  /** The tracks are the first ones of a walk: as many as there was room for. */
  ghost predicate FirstOf(node: Json, room: int, found: seq<Track>) {
    exists out :: Walk(node, out) && found == First(out, room)
  }

  /** Everything below a node that is no renderer goes onto the stack in its place. */
  method PushChildren(stack: seq<Json>, curr: Json, ghost node: Json, ghost found: seq<Track>)
    returns (r: seq<Json>)
    requires !IsRenderer(curr) && Leads(node, found, [curr] + Pending(stack))
    ensures Leads(node, found, Pending(r))
    ensures SizeItems(Pending(r)) < Size(curr) + SizeItems(Pending(stack))
  {
    ghost var js := Pending(stack);
    match curr {
      case Arr(xs) =>
        LeadsItems(node, found, xs, js);
        SizeSplit(xs, js);
        r := PushItems(stack, xs);
      case Obj(m) =>
        ghost var ks;
        r, ks := PushFields(stack, curr);
        LeadsFields(node, found, curr, ks, js);
        SizeSplit(Children(m, ks), js);
      case _ =>
        LeadsYield(node, found, curr, js, []);
        assert found + [] == found;
        r := stack;
    }
  }

  /**
   The stack computes the first tracks of a recursive walk, up to the limit; short of the limit it has every
   eligible renderer, as a multiset, in whatever order objects are iterated.
   */
  method ParseResults(node: Json, before: seq<Track>, limit: int) returns (tracks: seq<Track>)
    ensures before <= tracks && FirstOf(node, limit - |before|, tracks[|before|..])
    ensures |tracks| < limit ==> multiset(tracks) == multiset(before) + Holds(node)
  {
    tracks := before;
    ghost var found: seq<Track> := [];
    var stack := [node];
    LeadsStart(node);
    assert Pending([node]) == [node];
    while |stack| > 0 && |tracks| < limit
      invariant tracks == before + found && (|tracks| <= limit || found == [])
      invariant Leads(node, found, Pending(stack))
      decreases SizeItems(Pending(stack))
    {
      var curr := stack[|stack| - 1];
      ghost var left := SizeItems(Pending(stack));
      stack := stack[..|stack| - 1];
      ghost var js := Pending(stack);
      assert ([curr] + js)[1..] == js && left == Size(curr) + SizeItems(js);
      if IsRenderer(curr) {
        var more := ReadRenderer(curr.fields["videoRenderer"]);
        LeadsYield(node, found, curr, js, more);
        tracks, found := tracks + more, found + more;
      } else {
        stack := PushChildren(stack, curr, node, found);
      }
    }
    Finish(node, found, Pending(stack), limit - |before|);
  }

  lemma Finish(node: Json, found: seq<Track>, pending: seq<Json>, room: int)
    requires Leads(node, found, pending) && (pending == [] || |found| >= room) && (|found| <= room || found == [])
    ensures FirstOf(node, room, found)
    ensures |found| < room ==> multiset(found) == Holds(node)
  {
    var more := SomeWalks(pending);
    assert Walk(node, found + more);
    assert found == First(found + more, room);
    if |found| < room {
      WalkYieldsAll(node, found);
    }
  }

  // ----- answers built from texts -----

  /** {"runs": [{"text": text}]} */
  function Runs(text: string): Json {
    Obj(map["runs" := Arr([Obj(map["text" := Str(text)])])])
  }

  function SimpleText(text: string): Json {
    Obj(map["simpleText" := Str(text)])
  }

  function Picture(url: string): Json {
    Obj(map["thumbnails" := Arr([Obj(map["url" := Str(url)])])])
  }

  datatype Texts = Texts(id: string, title: string, length: string, thumbnail: string, views: string, channel: string)

  predicate Has(v: Json, name: string, field: Json) {
    v.Obj? && name in v.fields && v.fields[name] == field
  }

  /** A renderer with these texts; its other fields, such as badges, are open. */
  predicate Shows(vr: Json, t: Texts) {
    && Has(vr, "videoId", Str(t.id)) && Has(vr, "title", Runs(t.title)) && Has(vr, "lengthText", SimpleText(t.length))
    && Has(vr, "thumbnail", Picture(t.thumbnail)) && Has(vr, "viewCountText", SimpleText(t.views))
    && Has(vr, "ownerText", Runs(t.channel))
  }

  /** A badge that marks a live stream. */
  predicate MarksLive(badge: Json) {
    && badge.Obj? && "metadataBadgeRenderer" in badge.fields
    && badge.fields["metadataBadgeRenderer"].Obj?
    && "style" in badge.fields["metadataBadgeRenderer"].fields
    && badge.fields["metadataBadgeRenderer"].fields["style"] == Str("BADGE_STYLE_TYPE_LIVE_NOW")
  }

  predicate HasLiveBadge(fields: map<string, Json>) {
    "badges" in fields && fields["badges"].Arr? && exists badge :: badge in fields["badges"].items && MarksLive(badge)
  }

  lemma DigField(v: Json, name: string, path: seq<Hop>)
    requires v.Obj? && name in v.fields
    ensures Dig(v, [Key(name)] + path) == Dig(v.fields[name], path)
  {
    assert ([Key(name)] + path)[1..] == path;
  }

  lemma DigFirst(v: Json, path: seq<Hop>)
    requires v.Arr? && v.items != []
    ensures Dig(v, [Index(0)] + path) == Dig(v.items[0], path)
  {
    assert ([Index(0)] + path)[1..] == path;
  }

  lemma RunsText(vr: Json, name: string, text: string)
    requires Has(vr, name, Runs(text))
    ensures Text(Dig(vr, [Key(name), Key("runs"), Index(0), Key("text")])) == text
  {
    var runs := Arr([Obj(map["text" := Str(text)])]);
    DigField(vr, name, [Key("runs"), Index(0), Key("text")]);
    DigField(Runs(text), "runs", [Index(0), Key("text")]);
    DigFirst(runs, [Key("text")]);
    DigField(runs.items[0], "text", []);
    assert [Key(name)] + [Key("runs"), Index(0), Key("text")] == [Key(name), Key("runs"), Index(0), Key("text")];
    assert [Key("runs")] + [Index(0), Key("text")] == [Key("runs"), Index(0), Key("text")];
    assert [Index(0)] + [Key("text")] == [Index(0), Key("text")];
    assert [Key("text")] + [] == [Key("text")];
  }

  lemma SimpleTextText(vr: Json, name: string, text: string)
    requires Has(vr, name, SimpleText(text))
    ensures Text(Dig(vr, [Key(name), Key("simpleText")])) == text
  {
    DigField(vr, name, [Key("simpleText")]);
    DigField(SimpleText(text), "simpleText", []);
    assert [Key(name)] + [Key("simpleText")] == [Key(name), Key("simpleText")];
    assert [Key("simpleText")] + [] == [Key("simpleText")];
  }

  lemma ThumbnailText(vr: Json, url: string)
    requires Has(vr, "thumbnail", Picture(url))
    ensures Text(Dig(vr, THUMBNAIL)) == url
  {
    var list := Arr([Obj(map["url" := Str(url)])]);
    DigField(vr, "thumbnail", [Key("thumbnails"), Index(0), Key("url")]);
    DigField(vr.fields["thumbnail"], "thumbnails", [Index(0), Key("url")]);
    DigFirst(list, [Key("url")]);
    DigField(list.items[0], "url", []);
    assert [Key("thumbnail")] + [Key("thumbnails"), Index(0), Key("url")] == THUMBNAIL;
    assert [Key("thumbnails")] + [Index(0), Key("url")] == [Key("thumbnails"), Index(0), Key("url")];
    assert [Index(0)] + [Key("url")] == [Index(0), Key("url")];
    assert [Key("url")] + [] == [Key("url")];
  }

  lemma LiveExactlyWhen(vr: Json)
    requires vr.Obj?
    ensures Live(vr) <==> HasLiveBadge(vr.fields)
  {
    if "badges" in vr.fields && vr.fields["badges"].Arr? {
      var badges := vr.fields["badges"].items;
      forall badge | badge in badges
        ensures LiveBadge(badge) <==> MarksLive(badge)
      {
      }
    }
  }

  /** Any renderer with a live badge yields nothing, whatever else it holds. */
  lemma LiveYieldsNothing(vr: Json)
    requires vr.Obj? && HasLiveBadge(vr.fields)
    ensures Yield(vr) == []
  {
    LiveExactlyWhen(vr);
  }

  lemma RendererReads(vr: Json, t: Texts)
    requires Shows(vr, t)
    ensures Text(Field(vr, "videoId")) == t.id && Text(Dig(vr, TITLE)) == t.title && Text(Dig(vr, LENGTH)) == t.length
    ensures Text(Dig(vr, THUMBNAIL)) == t.thumbnail && Text(Dig(vr, VIEWS)) == t.views
    ensures Text(Dig(vr, CHANNEL)) == t.channel
  {
    RunsText(vr, "title", t.title);
    RunsText(vr, "ownerText", t.channel);
    SimpleTextText(vr, "lengthText", t.length);
    SimpleTextText(vr, "viewCountText", t.views);
    ThumbnailText(vr, t.thumbnail);
  }

  /**
   What a renderer made of any texts yields: nothing if it has a live badge or its id, title or length is empty, and
   otherwise one track with exactly those texts.
   */
  lemma RendererYields(vr: Json, t: Texts)
    requires Shows(vr, t)
    ensures Yield(vr) ==
            if HasLiveBadge(vr.fields) || t.id == "" || t.title == "" || t.length == "" then []
            else [Track(t.id, "https://www.youtube.com/watch?v=" + t.id, t.title, t.thumbnail,
                        Durations.Duration(t.length), t.views, t.channel, "youtube")]
  {
    RendererReads(vr, t);
    LiveExactlyWhen(vr);
  }

  /** An object that holds a renderer is walked no further. */
  lemma WrappedYields(j: Json, vr: Json, out: seq<Track>)
    requires Has(j, "videoRenderer", vr) && vr.Obj? && Walk(j, out)
    ensures out == Yield(vr)
  {
  }

  /** A live stream is not found: the search returns what it was given. */
  lemma LiveNotFound(j: Json, vr: Json, room: int, found: seq<Track>)
    requires Has(j, "videoRenderer", vr) && vr.Obj? && HasLiveBadge(vr.fields) && FirstOf(j, room, found)
    ensures found == []
  {
    var out :| Walk(j, out) && found == First(out, room);
    WrappedYields(j, vr, out);
    LiveYieldsNothing(vr);
  }

  /** The objects of a list, each holding a renderer. */
  ghost predicate Wraps(js: seq<Json>, vrs: seq<Json>) {
    |js| == |vrs| && forall i :: 0 <= i < |js| ==> vrs[i].Obj? && Has(js[i], "videoRenderer", vrs[i])
  }

  function Yields(vrs: seq<Json>): seq<Track> {
    if vrs == [] then [] else Yield(vrs[0]) + Yields(vrs[1..])
  }

  lemma WrapsNext(js: seq<Json>, vrs: seq<Json>)
    requires Wraps(js, vrs) && js != []
    ensures vrs[0].Obj? && Has(js[0], "videoRenderer", vrs[0]) && Wraps(js[1..], vrs[1..])
  {
  }

  lemma {:induction false} ListYields(js: seq<Json>, vrs: seq<Json>, out: seq<Track>)
    requires Wraps(js, vrs) && WalkAll(js, out)
    ensures out == Yields(vrs)
    decreases |js|
  {
    if js != [] {
      WrapsNext(js, vrs);
      assert [js[0]] + js[1..] == js;
      var a, b := WalkUncons(js[0], js[1..], out);
      WrappedYields(js[0], vrs[0], a);
      ListYields(js[1..], vrs[1..], b);
    }
  }

  lemma {:induction false} OrderLength(ks: seq<string>, keys: set<string>)
    requires Order(ks, keys)
    ensures |ks| == |keys|
    decreases |ks|
  {
    if ks == [] {
      assert keys == {};
    } else {
      assert ks == [ks[0]] + ks[1..];
      OrderLength(ks[1..], keys - {ks[0]});
    }
  }

  /** What is below the one field of an object is found there. */
  lemma SingleField(k: string, x: Json, out: seq<Track>)
    requires Walk(Obj(map[k := x]), out) && !(k == "videoRenderer" && x.Obj?)
    ensures Walk(x, out)
  {
    var j := Obj(map[k := x]);
    var ks :| Order(ks, j.fields.Keys) && WalkFields(j, ks, out);
    OrderLength(ks, {k});
    assert ks[0] in ks;
    var n :| 0 <= n <= |out| && Walk(j.fields[ks[0]], out[..n]) && WalkFields(j, ks[1..], out[n..]);
    assert out[..n] == out;
  }

  /**
   A list of renderers below a field: the search finds the tracks they yield, in the order of the list, as many as
   there is room for.
   */
  lemma ListFound(k: string, js: seq<Json>, vrs: seq<Json>, room: int, found: seq<Track>)
    requires Wraps(js, vrs) && FirstOf(Obj(map[k := Arr(js)]), room, found)
    ensures found == if room <= 0 then [] else if |Yields(vrs)| <= room then Yields(vrs) else Yields(vrs)[..room]
  {
    var out :| Walk(Obj(map[k := Arr(js)]), out) && found == First(out, room);
    SingleField(k, Arr(js), out);
    ItemsAll(js, out);
    ListYields(js, vrs, out);
  }
}
