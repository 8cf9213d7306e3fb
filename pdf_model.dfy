/**
 * The PDF document as the box remover sees it: an immutable heap of
 * objects reached through references, with the decoded bytes of its streams
 * as the only mutable state; and the string identities `get_object_id`
 * builds from an object's (number, generation) pair.
 */
module PdfModel {
  import opened Wrappers
  import opened Patterns

  /** A handle to an object of the document. Direct objects have handles
      too; what distinguishes them is only their (number, generation). */
  type Ref = nat

  /** `objgen`: object number and generation (0, 0 for direct objects). */
  datatype ObjGen = ObjGen(num: nat, gen: nat)

  /** One key/value pair of a dictionary; a PDF dictionary holds each key
      once, and its entries are listed in the library's key order. */
  datatype Entry = Entry(key: string, val: Ref)

  datatype Obj =
    | Null
    | Name(name: string)
    | Array(items: seq<Ref>)
    | Dict(entries: seq<Entry>)
    | Stream(entries: seq<Entry>)   // the stream dictionary; the bytes live in Pdf.streams

  /** `d.get(key)`: the value under `key`, if any. */
  function Lookup(entries: seq<Entry>, key: string): (r: Option<Ref>)
    ensures r.None? <==> forall k :: 0 <= k < |entries| ==> entries[k].key != key
    ensures r.Some? ==> Entry(key, r.value) in entries
  {
    if entries == [] then None
    else if entries[0].key == key then Some(entries[0].val)
    else Lookup(entries[1..], key)
  }

  /** `obj.get(key)` on a dictionary or a stream dictionary. */
  function Get(o: Obj, key: string): (r: Option<Ref>)
    ensures r.Some? ==> o.Dict? || o.Stream?
  {
    match o
    case Dict(e) => Lookup(e, key)
    case Stream(e) => Lookup(e, key)
    case _ => None
  }

  /** Python truthiness of a library object: null is false, containers
      are true when not empty; a stream dictionary always holds /Length. */
  predicate Truthy(o: Obj) {
    match o
    case Null => false
    case Name(n) => n != []
    case Array(items) => items != []
    case Dict(e) => e != []
    case Stream(e) => e != []
  }

  /** An open document. The object graph does not change during
      processing; `stream.write` replaces a stream's bytes. A stream whose
      reference has no entry in `streams` cannot be read (`read_bytes`
      raises, for instance on an unsupported filter). */
  class Pdf {
    const heap: map<Ref, Obj>
    const objgen: Ref -> ObjGen
    const pages: seq<Ref>
    var streams: map<Ref, seq<byte>>

    constructor (heap: map<Ref, Obj>, objgen: Ref -> ObjGen, pages: seq<Ref>, streams: map<Ref, seq<byte>>)
      ensures this.heap == heap && this.objgen == objgen && this.pages == pages
      ensures this.streams == streams
    {
      this.heap := heap;
      this.objgen := objgen;
      this.pages := pages;
      this.streams := streams;
    }

    /** Dereferencing; a dangling reference reads as null. */
    function Deref(r: Ref): (o: Obj)
      ensures r in heap ==> o == heap[r]
      ensures !o.Null? ==> r in heap && o == heap[r]
    {
      if r in heap then heap[r] else Null
    }
  }

  /** Distinct streams have distinct (number, generation) pairs, as in any
      PDF file, where every stream is an indirect object (section 7.3.8.1 of
      ISO 32000-1). The model does not assume it; the contracts that rely
      on it say so. */
  ghost predicate StreamsDistinct(doc: Pdf) {
    forall a, b | a != b && doc.Deref(a).Stream? && doc.Deref(b).Stream? :: doc.objgen(a) != doc.objgen(b)
  }

  /** Decimal digits of n, as Python's `f"{n}"` prints it. */
  function Decimal(n: nat): (s: string)
    ensures s != []
    ensures forall k :: 0 <= k < |s| ==> '0' <= s[k] <= '9'
    decreases n
  {
    if n < 10 then [Digit(n)] else Decimal(n / 10) + [Digit(n % 10)]
  }

  function Digit(d: nat): (c: char)
    requires d < 10
    ensures '0' <= c <= '9'
  {
    (48 + d) as char
  }

  /** Different numbers print differently. */
  lemma {:induction false} DecimalInjective(m: nat, n: nat)
    requires Decimal(m) == Decimal(n)
    ensures m == n
    decreases m
  {
    if m >= 10 && n >= 10 {
      var a, b := Decimal(m), Decimal(n);
      assert a[..|a| - 1] == Decimal(m / 10) && b[..|b| - 1] == Decimal(n / 10);
      assert Digit(m % 10) == a[|a| - 1] == b[|b| - 1] == Digit(n % 10);
      DecimalInjective(m / 10, n / 10);
    }
  }

  /** `get_object_id(obj, prefix)` when obj has an objgen:
      prefix + number + "_" + generation. */
  function ObjectId(og: ObjGen, prefix: string): string {
    prefix + Decimal(og.num) + "_" + Decimal(og.gen)
  }

  /** Index of the first '_' in s, or |s|. */
  function FirstUnderscore(s: string): (k: nat)
    ensures k <= |s|
  {
    if s == [] || s[0] == '_' then 0 else 1 + FirstUnderscore(s[1..])
  }

  /** In digits + "_" + rest, the first '_' is the one after the digits. */
  lemma {:induction false} FirstUnderscoreAfterDigits(a: string, b: string)
    requires forall k :: 0 <= k < |a| ==> '0' <= a[k] <= '9'
    ensures FirstUnderscore(a + "_" + b) == |a|
  {
    if a != [] {
      assert (a + "_" + b)[1..] == a[1..] + "_" + b;
      FirstUnderscoreAfterDigits(a[1..], b);
    }
  }

  /** Two digit strings joined by "_" split back uniquely. */
  lemma DigitsSplit(a: string, b: string, c: string, d: string)
    requires forall k :: 0 <= k < |a| ==> '0' <= a[k] <= '9'
    requires forall k :: 0 <= k < |c| ==> '0' <= c[k] <= '9'
    requires a + "_" + b == c + "_" + d
    ensures a == c && b == d
  {
    var x, y := a + "_" + b, c + "_" + d;
    FirstUnderscoreAfterDigits(a, b);
    FirstUnderscoreAfterDigits(c, d);
    assert a == x[..|a|] == y[..|c|] == c;
    assert b == x[|a| + 1..] == y[|c| + 1..] == d;
  }

  /** Under one prefix, identities are equal exactly when the
      (number, generation) pairs are: the key function never conflates two
      objgen pairs, though objects that share a pair share the key. */
  lemma ObjectIdInjective(og1: ObjGen, og2: ObjGen, prefix: string)
    ensures ObjectId(og1, prefix) == ObjectId(og2, prefix) <==> og1 == og2
  {
    if ObjectId(og1, prefix) == ObjectId(og2, prefix) {
      var a, b := Decimal(og1.num), Decimal(og1.gen);
      var c, d := Decimal(og2.num), Decimal(og2.gen);
      var x, y := ObjectId(og1, prefix), ObjectId(og2, prefix);
      assert x == prefix + (a + "_" + b) && y == prefix + (c + "_" + d);
      assert a + "_" + b == x[|prefix|..] == y[|prefix|..] == c + "_" + d;
      DigitsSplit(a, b, c, d);
      DecimalInjective(og1.num, og2.num);
      DecimalInjective(og1.gen, og2.gen);
    }
  }
}
