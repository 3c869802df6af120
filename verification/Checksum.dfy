/** Sealing of events (collector/event_model/checksum.py, envelope.py): what a checksum covers. */
module Checksum {
  datatype Json =
    | Null
    | Bool(b: bool)
    | Num(n: real)
    | Text(s: string)
    | List(items: seq<Json>)
    | Dict(fields: map<string, Json>)

  const CHECKSUM := "checksum"

  /** The value with every checksum key removed, at any depth. */
  function Strip(j: Json): Json {
    match j
    case List(items) => List(seq(|items|, k requires 0 <= k < |items| => Strip(items[k])))
    case Dict(fields) => Dict(map key | key in fields && key != CHECKSUM :: Strip(fields[key]))
    case _ => j
  }

  /** Equal in everything but checksum keys. */
  predicate Alike(a: Json, b: Json) {
    match a
    case List(items) =>
      b.List? && |items| == |b.items| && forall k :: 0 <= k < |items| ==> Alike(items[k], b.items[k])
    case Dict(fields) =>
      && b.Dict?
      && (forall key :: key in fields && key != CHECKSUM ==> key in b.fields && Alike(fields[key], b.fields[key]))
      && (forall key :: key in b.fields && key != CHECKSUM ==> key in fields)
    case _ => a == b
  }

  /** Stripping forgets checksum keys and nothing else. */
  lemma {:induction false} StripIsBlindIff(a: Json, b: Json)
    ensures Strip(a) == Strip(b) <==> Alike(a, b)
  {
    match a
    case List(items) =>
      if b.List? && |items| == |b.items| {
        forall k | 0 <= k < |items| ensures Strip(items[k]) == Strip(b.items[k]) <==> Alike(items[k], b.items[k]) {
          StripIsBlindIff(items[k], b.items[k]);
        }
        if Strip(a) == Strip(b) {
          forall k | 0 <= k < |items| ensures Alike(items[k], b.items[k]) {
            assert Strip(a).items[k] == Strip(items[k]) && Strip(b).items[k] == Strip(b.items[k]);
          }
        }
      } else if b.List? {
        assert |Strip(a).items| != |Strip(b).items|;
      }
    case Dict(fields) =>
      if b.Dict? {
        forall key | key in fields && key in b.fields
          ensures Strip(fields[key]) == Strip(b.fields[key]) <==> Alike(fields[key], b.fields[key])
        {
          StripIsBlindIff(fields[key], b.fields[key]);
        }
        if Strip(a) == Strip(b) {
          forall key | key != CHECKSUM
            ensures key in fields <==> key in b.fields
            ensures key in fields ==> Alike(fields[key], b.fields[key])
          {
            assert key in Strip(a).fields <==> key in Strip(b).fields;
            if key in fields { assert Strip(a).fields[key] == Strip(b).fields[key]; }
          }
        }
        if Alike(a, b) {
          assert Strip(a).fields == Strip(b).fields;
        }
      }
    case _ =>
  }

  lemma {:induction false} AlikeStripped(j: Json)
    ensures Alike(Strip(j), j)
  {
    match j
    case List(items) =>
      forall k | 0 <= k < |items| ensures Alike(Strip(items[k]), items[k]) { AlikeStripped(items[k]); }
    case Dict(fields) =>
      forall key | key in fields ensures Alike(Strip(fields[key]), fields[key]) { AlikeStripped(fields[key]); }
    case _ =>
  }

  lemma StripIdempotent(j: Json)
    ensures Strip(Strip(j)) == Strip(j)
  {
    AlikeStripped(j);
    StripIsBlindIff(Strip(j), j);
  }

  /** The digest of a canonical text, as a function of the stripped value it prints. */
  type Digest = Json -> string

  function Compute(digest: Digest, event: map<string, Json>): string {
    digest(Strip(Dict(event)))
  }

  predicate Verifies(digest: Digest, event: map<string, Json>) {
    CHECKSUM in event && event[CHECKSUM] == Text(Compute(digest, event))
  }

  /** What build_event returns: the content with its checksum added. */
  function Seal(digest: Digest, event: map<string, Json>): map<string, Json> {
    event[CHECKSUM := Text(Compute(digest, event))]
  }

  /** Whatever is sealed verifies. */
  lemma SealedVerifies(digest: Digest, event: map<string, Json>)
    ensures Verifies(digest, Seal(digest, event))
  {
    assert Strip(Dict(Seal(digest, event))).fields == Strip(Dict(event)).fields;
  }

  /** Unless the digests of the two contents collide, an event that carries the checksum of another
      verifies exactly when it is the same event in everything but nested checksum keys. */
  lemma SealVerifiesExactly(digest: Digest, event: map<string, Json>, other: map<string, Json>)
    requires digest(Strip(Dict(event))) == digest(Strip(Dict(other))) ==> Strip(Dict(event)) == Strip(Dict(other))
    requires CHECKSUM in other && other[CHECKSUM] == Seal(digest, event)[CHECKSUM]
    ensures Verifies(digest, other) <==> Alike(Dict(event), Dict(other))
  {
    StripIsBlindIff(Dict(event), Dict(other));
  }
}
