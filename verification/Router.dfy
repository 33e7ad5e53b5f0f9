/** The RouterOS REST endpoint as the server sees it: lists of objects under
    six paths, and three requests that may each fail
    (apps/snx-edge-server/src/routeros/client.rs). */
module Router {
  import opened Text

  datatype Path = Filter | Nat | Mangle | Route | AddressList | Table

  /** An object as written, apart from the id the router gives it. */
  datatype Spec = Spec(path: Path, comment: Option<string>, attrs: map<string, string>) {
    function Attr(name: string): Option<string> {
      if name in attrs then Some(attrs[name]) else None
    }
  }

  /** RouterOS names an object by `*` and a hexadecimal number. */
  datatype Obj = Obj(id: nat, spec: Spec)

  /** What happens to one request: it works, it is refused, or the router
      carries it out and the answer is lost. */
  datatype Fault = Works | Refused | AnswerLost

  /** The router's objects in list order, its next free id, and the fate of the
      requests to come (every request after the script works). */
  datatype World = World(objs: seq<Obj>, nextId: nat, script: seq<Fault>) {
    function Fate(): Fault {
      if script == [] then Works else script[0]
    }

    function Later(): World {
      if script == [] then this else this.(script := script[1..])
    }

    /** Ids are unique under a path, and never reused. */
    ghost predicate Valid() {
      && (forall o :: o in objs ==> o.id < nextId)
      && Distinct(objs)
    }
  }

  predicate SameRef(a: Obj, b: Obj) {
    a.spec.path == b.spec.path && a.id == b.id
  }

  predicate At(o: Obj, p: Path, id: nat) {
    o.spec.path == p && o.id == id
  }

  function On(objs: seq<Obj>, p: Path): (r: seq<Obj>)
    ensures forall o :: o in r <==> o in objs && o.spec.path == p
  {
    if objs == [] then []
    else
      var n := |objs| - 1;
      On(objs[..n], p) + (if objs[n].spec.path == p then [objs[n]] else [])
  }

  function Without(objs: seq<Obj>, p: Path, id: nat): (r: seq<Obj>)
    ensures forall o :: o in r <==> o in objs && !At(o, p, id)
  {
    if objs == [] then []
    else
      var n := |objs| - 1;
      Without(objs[..n], p, id) + (if At(objs[n], p, id) then [] else [objs[n]])
  }

  function ListCall(w: World, p: Path): (World, Option<seq<Obj>>) {
    (w.Later(), if w.Fate() == Works then Some(On(w.objs, p)) else None)
  }

  /** A lost answer still creates. */
  function CreateCall(w: World, s: Spec): (World, bool) {
    if w.Fate() == Refused then (w.Later(), false)
    else (w.Later().(objs := w.objs + [Obj(w.nextId, s)], nextId := w.nextId + 1), w.Fate() == Works)
  }

  /** Deleting what is not there is an error; a lost answer still deletes. */
  function DeleteCall(w: World, p: Path, id: nat): (World, bool) {
    if w.Fate() == Refused || !exists o :: o in w.objs && At(o, p, id) then (w.Later(), false)
    else (w.Later().(objs := Without(w.objs, p, id)), w.Fate() == Works)
  }

  /** The remote router: the methods are the requests. */
  class RouterOs {
    var objs: seq<Obj>
    var nextId: nat
    var script: seq<Fault>

    constructor (w: World)
      ensures State() == w
    {
      objs, nextId, script := w.objs, w.nextId, w.script;
    }

    function State(): World
      reads this
    {
      World(objs, nextId, script)
    }

    method Fate() returns (f: Fault)
      modifies this`script
      ensures f == old(State()).Fate() && State() == old(State()).Later()
    {
      f := Works;
      if script != [] { f, script := script[0], script[1..]; }
    }

    method List(p: Path) returns (r: Option<seq<Obj>>)
      modifies this
      ensures (State(), r) == ListCall(old(State()), p)
    {
      var f := Fate();
      r := if f == Works then Some(On(objs, p)) else None;
    }

    method Create(s: Spec) returns (ok: bool)
      modifies this
      ensures (State(), ok) == CreateCall(old(State()), s)
    {
      var f := Fate();
      if f != Refused {
        objs, nextId := objs + [Obj(nextId, s)], nextId + 1;
      }
      ok := f == Works;
    }

    method Delete(p: Path, id: nat) returns (ok: bool)
      modifies this
      ensures (State(), ok) == DeleteCall(old(State()), p, id)
    {
      var f := Fate();
      ok := false;
      if f != Refused && exists o :: o in objs && At(o, p, id) {
        objs := Without(objs, p, id);
        ok := f == Works;
      }
    }
  }

  // --- Object ids on the wire ---

  function HexDigit(d: nat): char
    requires d < 16
  {
    "0123456789ABCDEF"[d]
  }

  predicate IsHexDigit(c: char) {
    '0' <= c <= '9' || 'a' <= c <= 'f' || 'A' <= c <= 'F'
  }

  function Hex(n: nat): string {
    if n < 16 then [HexDigit(n)] else Hex(n / 16) + [HexDigit(n % 16)]
  }

  /** The check `delete` makes before it puts an id in a URL. */
  predicate AcceptsId(id: string) {
    |id| >= 2 && id[0] == '*' && forall c :: c in id[1..] ==> IsHexDigit(c)
  }

  lemma {:induction false} HexDigits(n: nat)
    ensures Hex(n) != "" && forall c :: c in Hex(n) ==> IsHexDigit(c)
  {
    if n < 16 {
    } else {
      HexDigits(n / 16);
    }
  }

  lemma DigitsListed(c: char)
    ensures IsHexDigit(c) <==> c in "0123456789abcdefABCDEF"
  {
    var all := "0123456789abcdefABCDEF";
    if '0' <= c <= '9' {
      assert all[c as int - '0' as int] == c;
    } else if 'a' <= c <= 'f' {
      assert all[10 + (c as int - 'a' as int)] == c;
    } else if 'A' <= c <= 'F' {
      assert all[16 + (c as int - 'A' as int)] == c;
    }
  }

  /** Exactly a star and some hexadecimal digits make an id: no id the router
      hands out is turned away, and no accepted id can leave its slot in the
      request path. */
  lemma IdsRoundTrip(n: nat, id: string)
    ensures AcceptsId("*" + Hex(n))
    ensures AcceptsId(id) <==>
      |id| > 1 && id[..1] == "*" && forall c :: c in id[1..] ==> c in "0123456789abcdefABCDEF"
    ensures AcceptsId(id) ==> forall c :: c in id ==> c !in "/?#%. "
  {
    HexDigits(n);
    var text := "*" + Hex(n);
    assert text[1..] == Hex(n);
    forall c: char
      ensures IsHexDigit(c) <==> c in "0123456789abcdefABCDEF"
    {
      DigitsListed(c);
    }
    if AcceptsId(id) {
      assert id == [id[0]] + id[1..];
    }
  }

  // --- Facts about lists of objects ---

  function Bag(objs: seq<Obj>): multiset<Spec> {
    if objs == [] then multiset{}
    else
      var n := |objs| - 1;
      Bag(objs[..n]) + multiset{objs[n].spec}
  }

  lemma BagAppend(objs: seq<Obj>, o: Obj)
    ensures Bag(objs + [o]) == Bag(objs) + multiset{o.spec}
  {
    assert (objs + [o])[..|objs|] == objs;
  }

  lemma {:induction false} BagHas(objs: seq<Obj>, s: Spec)
    ensures s in Bag(objs) <==> exists o :: o in objs && o.spec == s
  {
    if objs == [] {
    } else {
      var n := |objs| - 1;
      BagHas(objs[..n], s);
      assert objs == objs[..n] + [objs[n]];
    }
  }

  lemma {:induction false} BagWithout(objs: seq<Obj>, p: Path, id: nat)
    ensures Bag(Without(objs, p, id)) <= Bag(objs)
  {
    if objs == [] {
    } else {
      var n := |objs| - 1;
      BagWithout(objs[..n], p, id);
      if !At(objs[n], p, id) {
        BagAppend(Without(objs[..n], p, id), objs[n]);
      } else {
        assert Without(objs, p, id) == Without(objs[..n], p, id);
      }
    }
  }

  ghost predicate Distinct(objs: seq<Obj>) {
    forall i, j :: 0 <= i < j < |objs| ==> !SameRef(objs[i], objs[j])
  }

  lemma DistinctAppend(objs: seq<Obj>, o: Obj)
    requires Distinct(objs) && forall x :: x in objs ==> !SameRef(x, o)
    ensures Distinct(objs + [o])
  {
  }

  lemma ValidAppend(w: World, s: Spec)
    requires w.Valid()
    ensures World(w.objs + [Obj(w.nextId, s)], w.nextId + 1, w.script).Valid()
  {
    DistinctAppend(w.objs, Obj(w.nextId, s));
  }

  lemma {:induction false} WithoutDistinct(objs: seq<Obj>, p: Path, id: nat)
    requires Distinct(objs)
    ensures Distinct(Without(objs, p, id))
  {
    if objs == [] {
    } else {
      var n := |objs| - 1;
      WithoutDistinct(objs[..n], p, id);
      var rest := Without(objs[..n], p, id);
      if !At(objs[n], p, id) {
        forall x | x in rest ensures !SameRef(x, objs[n]) {
          var i :| 0 <= i < n && objs[..n][i] == x;
          assert objs[i] == x;
        }
        DistinctAppend(rest, objs[n]);
      } else {
        assert Without(objs, p, id) == rest;
      }
    }
  }

  lemma {:induction false} OnDistinct(objs: seq<Obj>, p: Path)
    requires Distinct(objs)
    ensures Distinct(On(objs, p))
  {
    if objs == [] {
    } else {
      var n := |objs| - 1;
      OnDistinct(objs[..n], p);
      var rest := On(objs[..n], p);
      if objs[n].spec.path == p {
        forall x | x in rest ensures !SameRef(x, objs[n]) {
          var i :| 0 <= i < n && objs[..n][i] == x;
          assert objs[i] == x;
        }
        DistinctAppend(rest, objs[n]);
      } else {
        assert On(objs, p) == rest;
      }
    }
  }
}
