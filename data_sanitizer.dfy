/** `sanitize_data`: the recursive clean-up applied to documents before they
    are returned as JSON. */
module DataSanitizer {
  import opened Wrappers
  import opened PyValues
  import opened Text

  /** The strings that become None: "nan" and "none" in any letter case. */
  predicate IsNanOrNoneText(s: string) {
    Lower(s) == "nan" || Lower(s) == "none"
  }

  /** What `sanitize_data` leaves behind, down through dicts and lists: no
      ObjectId, no NaN, no "nan"/"none" string. Tuples are not entered,
      because the sanitizer does not enter them. */
  predicate Clean(v: Value)
    decreases v
  {
    match v
    case Dict(es) => forall i :: 0 <= i < |es| ==> Clean(es[i].val)
    case List(xs) => forall i :: 0 <= i < |xs| ==> Clean(xs[i])
    case Oid(_) => false
    case Num(f) => f != NaN
    case Str(s) => !IsNanOrNoneText(s)
    case _ => true
  }

  /** `sanitize_data(data)` */
  function Sanitize(v: Value): (r: Value)
    ensures Clean(r)
    ensures v.Dict? ==> r.Dict? && Keys(r.entries) == Keys(v.entries)
    ensures v.Dict? ==> forall i :: 0 <= i < |v.entries| ==> r.entries[i].val == Sanitize(v.entries[i].val)
    ensures v.List? ==> r.List? && |r.items| == |v.items|
    ensures v.List? ==> forall i :: 0 <= i < |v.items| ==> r.items[i] == Sanitize(v.items[i])
    ensures v.Oid? ==> r == Str(v.hex)
    ensures v == Num(NaN) ==> r == Null
    ensures v.Str? ==> r == if IsNanOrNoneText(v.s) then Null else v
    ensures !(v.Dict? || v.List? || v.Oid? || v.Str? || v == Num(NaN)) ==> r == v
    decreases v
  {
    match v
    case Dict(es) =>
      var r := seq(|es|, i requires 0 <= i < |es| => Entry(es[i].key, Sanitize(es[i].val)));
      KeysAgree(r, es);
      Dict(r)
    case List(xs) =>
      List(seq(|xs|, i requires 0 <= i < |xs| => Sanitize(xs[i])))
    case Oid(h) =>
      assert |Lower(h)| == 24;
      Str(h)
    case Num(NaN) => Null
    case Str(s) => if IsNanOrNoneText(s) then Null else v
    case _ => v
  }

  /** A sanitized dict answers every lookup with the sanitized value. */
  lemma {:induction false} SanitizeGet(es: Document, k: string)
    ensures Get(Sanitize(Dict(es)).entries, k) == if HasKey(es, k) then Some(Sanitize(Get(es, k).value)) else None
  {
    var r := Sanitize(Dict(es)).entries;
    if |es| > 0 {
      SanitizeGet(es[1..], k);
      assert r[1..] == Sanitize(Dict(es[1..])).entries;
    }
  }

  /** A clean value is left as it is. */
  lemma {:induction false} SanitizeFixesClean(v: Value)
    requires Clean(v)
    ensures Sanitize(v) == v
    decreases v
  {
    match v
    case Dict(es) =>
      forall i | 0 <= i < |es| ensures Sanitize(es[i].val) == es[i].val {
        SanitizeFixesClean(es[i].val);
      }
      assert Sanitize(v).entries == es;
    case List(xs) =>
      forall i | 0 <= i < |xs| ensures Sanitize(xs[i]) == xs[i] {
        SanitizeFixesClean(xs[i]);
      }
      assert Sanitize(v).items == xs;
    case _ =>
  }

  /** Sanitizing twice is sanitizing once. */
  lemma SanitizeIdempotent(v: Value)
    ensures Sanitize(Sanitize(v)) == Sanitize(v)
  {
    SanitizeFixesClean(Sanitize(v));
  }

  /** `[sanitize_data(d) for d in docs]` on a list of documents. */
  function SanitizeDocs(docs: seq<Document>): (r: seq<Document>)
    ensures |r| == |docs|
    ensures forall i :: 0 <= i < |docs| ==> Dict(r[i]) == Sanitize(Dict(docs[i]))
  {
    seq(|docs|, i requires 0 <= i < |docs| => Sanitize(Dict(docs[i])).entries)
  }
}
