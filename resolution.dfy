/**
 * The id-or-serial resolution both repositories use: the argument is tried
 * as an ObjectId first (ObjectId.Parse), and only when it does not parse is
 * it compared with the records' serial numbers. A string that parses is
 * never compared with serial numbers, even when no identity matches it.
 */
module Resolution {
  import opened Wrappers
  import opened Bson
  import opened Driver
  import opened Models

  /** The position of the record an id-or-serial string designates, if any. */
  function ResolveIndex<D, S>(s: seq<Record<D, S>>, serialOf: Record<D, S> -> string, idSerial: string): (r: Option<nat>)
    ensures r.Some? ==> r.value < |s|
    ensures r.Some? ==> match ParseObjectId(idSerial)
                        case Some(id) => s[r.value].id == id
                        case None => serialOf(s[r.value]) == idSerial
  {
    match ParseObjectId(idSerial)
    case Some(id) => FirstIndexWith(s, IdOf, id)
    case None => FirstIndexWith(s, serialOf, idSerial)
  }

  /** The record an id-or-serial string designates, or null. */
  function Resolve<D, S>(s: seq<Record<D, S>>, serialOf: Record<D, S> -> string, idSerial: string): (r: Option<Record<D, S>>)
    ensures r.Some? ==> r.value in s
    ensures r.Some? ==> match ParseObjectId(idSerial)
                        case Some(id) => r.value.id == id
                        case None => serialOf(r.value) == idSerial
  {
    match ResolveIndex(s, serialOf, idSerial)
    case None => None
    case Some(i) => Some(s[i])
  }

  /** No two records share an identity. */
  predicate IdsDistinct<D, S>(s: seq<Record<D, S>>) {
    forall i, j :: 0 <= i < j < |s| ==> s[i].id != s[j].id
  }

  /** No two records share a serial number. */
  predicate SerialsDistinct<D, S>(s: seq<Record<D, S>>, serialOf: Record<D, S> -> string) {
    forall i, j :: 0 <= i < j < |s| ==> serialOf(s[i]) != serialOf(s[j])
  }

  /** Removing a record keeps identities and serial numbers unique. */
  lemma RemoveKeepsDistinct<D, S>(s: seq<Record<D, S>>, serialOf: Record<D, S> -> string, i: nat)
    requires i < |s| && IdsDistinct(s) && SerialsDistinct(s, serialOf)
    ensures IdsDistinct(RemoveAt(s, i)) && SerialsDistinct(RemoveAt(s, i), serialOf)
  {
  }

  /** The string form of a stored identity resolves to that record. */
  lemma ResolveFormattedId<D, S>(s: seq<Record<D, S>>, serialOf: Record<D, S> -> string, k: nat)
    requires k < |s| && IdsDistinct(s)
    ensures ResolveIndex(s, serialOf, ObjectIdToString(s[k].id)) == Some(k)
    ensures Resolve(s, serialOf, ObjectIdToString(s[k].id)) == Some(s[k])
  {
    ParseFormattedId(s[k].id);
    FirstWithUnique(s, IdOf, k);
  }

  /** A string that parses as an identity no record has resolves to null, whatever the serial numbers hold. */
  lemma IdShapedMissIsNull<D, S>(s: seq<Record<D, S>>, serialOf: Record<D, S> -> string, idSerial: string)
    requires ParseObjectId(idSerial).Some?
    requires forall i :: 0 <= i < |s| ==> s[i].id != ParseObjectId(idSerial).value
    ensures Resolve(s, serialOf, idSerial).None?
  {
  }

  /** A serial number that does not parse as an ObjectId resolves to the one record that carries it. */
  lemma ResolveSerial<D, S>(s: seq<Record<D, S>>, serialOf: Record<D, S> -> string, k: nat)
    requires k < |s| && SerialsDistinct(s, serialOf)
    requires ParseObjectId(serialOf(s[k])).None?
    ensures ResolveIndex(s, serialOf, serialOf(s[k])) == Some(k)
    ensures Resolve(s, serialOf, serialOf(s[k])) == Some(s[k])
  {
  }

  /**
   * Delete then find: once the record a string resolves to is removed, the
   * same string resolves to null, because identities and serial numbers are unique.
   */
  lemma {:induction false} DeletedResolvesToNull<D, S>(s: seq<Record<D, S>>, serialOf: Record<D, S> -> string, idSerial: string)
    requires IdsDistinct(s) && SerialsDistinct(s, serialOf)
    requires ResolveIndex(s, serialOf, idSerial).Some?
    ensures Resolve(RemoveAt(s, ResolveIndex(s, serialOf, idSerial).value), serialOf, idSerial).None?
  {
    var i := ResolveIndex(s, serialOf, idSerial).value;
    var r := RemoveAt(s, i);
    forall k | 0 <= k < |r|
      ensures r[k].id != s[i].id && serialOf(r[k]) != serialOf(s[i])
    {
      if k < i {
        assert r[k] == s[k];
      } else {
        assert r[k] == s[k + 1];
      }
    }
  }

  /** A string that does not parse and that no serial number equals resolves to null. */
  lemma UnknownSerialIsNull<D, S>(s: seq<Record<D, S>>, serialOf: Record<D, S> -> string, idSerial: string)
    requires ParseObjectId(idSerial).None?
    requires forall i :: 0 <= i < |s| ==> serialOf(s[i]) != idSerial
    ensures Resolve(s, serialOf, idSerial).None?
  {
  }
}
