/** Which pointer `QueryInterface` finds: the IID comparisons that `impl_com_interface!`
  * generates for a primary interface with any list of secondaries. */
module ComIdentity {
  import opened Basics

  datatype GUID = GUID(data1: nat, data2: nat, data3: nat, data4: seq<nat>)

  const IID_IUNKNOWN := GUID(0, 0, 0, [0xC0, 0, 0, 0, 0, 0, 0, 0x46])

  /** The interfaces of an object: the primary at offset 0, the secondaries in declaration
    * order, and the parents of the primary that the fallback answers with the primary. */
  datatype Decl = Decl(primary: GUID, secondaries: seq<GUID>, parents: seq<GUID>)

  datatype Place = ToPrimary | ToSecondary(i: nat)

  /** `__kcom_qi_match_secondaries_from_wrapper!`: one comparison for the head, then the tail
    * with the next index. */
  function MatchSecondaries(riid: GUID, rest: seq<GUID>, index: nat): Option<nat> {
    if rest == [] then None
    else if riid == rest[0] then Some(index)
    else MatchSecondaries(riid, rest[1..], index + 1)
  }

  /** The wrapper's IUnknown test, then the generated `query_interface`. */
  function Lookup(d: Decl, riid: GUID): Option<Place> {
    if riid == IID_IUNKNOWN || riid == d.primary then Some(ToPrimary)
    else
      match MatchSecondaries(riid, d.secondaries, 0)
      case Some(i) => Some(ToSecondary(i))
      case None => if riid in d.parents then Some(ToPrimary) else None
  }

  predicate InDecl(d: Decl, p: Place) {
    p.ToSecondary? ==> p.i < |d.secondaries|
  }

  /** The interface whose vtable stands at a place. */
  function IidAt(d: Decl, p: Place): GUID
    requires InDecl(d, p)
  {
    match p
    case ToPrimary => d.primary
    case ToSecondary(i) => d.secondaries[i]
  }

  /** The unrolled comparisons find the first secondary with that IID, if there is one. */
  lemma {:induction false} MatchFindsFirst(riid: GUID, rest: seq<GUID>, index: nat)
    ensures match MatchSecondaries(riid, rest, index)
            case Some(n) => index <= n < index + |rest| && rest[n - index] == riid
                            && forall j :: 0 <= j < n - index ==> rest[j] != riid
            case None => riid !in rest
  {
    if rest != [] && riid != rest[0] {
      MatchFindsFirst(riid, rest[1..], index + 1);
      var n := MatchSecondaries(riid, rest[1..], index + 1);
      if n.Some? {
        assert rest[n.value - index] == rest[1..][n.value - index - 1];
        forall j | 0 <= j < n.value - index ensures rest[j] != riid {
          if j > 0 {
            assert rest[j] == rest[1..][j - 1];
          }
        }
      } else {
        assert forall j :: 1 <= j < |rest| ==> rest[j] == rest[1..][j - 1];
      }
    }
  }

  /** Success is decided by the IID alone, and what is found carries the vtable of the IID
    * asked for, except that IUnknown and the parents of the primary are the primary. */
  lemma LookupFinds(d: Decl, riid: GUID)
    ensures Lookup(d, riid).Some? <==>
              riid == IID_IUNKNOWN || riid == d.primary || riid in d.secondaries || riid in d.parents
    ensures Lookup(d, riid).Some? ==>
              var p := Lookup(d, riid).value;
              InDecl(d, p) && (IidAt(d, p) == riid || (p.ToPrimary? && (riid == IID_IUNKNOWN || riid in d.parents)))
    ensures Lookup(d, IID_IUNKNOWN) == Some(ToPrimary)
  {
    MatchFindsFirst(riid, d.secondaries, 0);
  }

  /** An interface asked for its own IID answers with itself exactly when no other interface
    * of the object that is compared earlier declares the same IID. */
  lemma FindsItself(d: Decl, p: Place)
    requires InDecl(d, p)
    ensures Lookup(d, IidAt(d, p)) == Some(p) <==>
              p.ToPrimary? || (IidAt(d, p) != IID_IUNKNOWN && IidAt(d, p) != d.primary
                               && forall j :: 0 <= j < p.i ==> d.secondaries[j] != d.secondaries[p.i])
  {
    MatchFindsFirst(IidAt(d, p), d.secondaries, 0);
    if p.ToSecondary? {
      var n := MatchSecondaries(d.secondaries[p.i], d.secondaries, 0);
      assert n.Some? && n.value <= p.i;
    }
  }
}
