/** What a project canvas shows, and the identifiers the mock control plane hands out. */
module Resources {
  import opened Text

  datatype Kind = ServiceKind | PostgresKind | RedisKind | ObjectStoreKind | NetworkGatewayKind

  /** An entry of a canvas, with the volumes it shows. */
  datatype Resource = Resource(id: string, kind: Kind, name: string, volumes: seq<string>)

  predicate DistinctIds(rs: seq<Resource>) {
    forall i, j :: 0 <= i < j < |rs| ==> rs[i].id != rs[j].id
  }

  /** `nextMockID` for the sequence number `n`. */
  function MockId(prefix: string, n: nat): string {
    prefix + "-mock-" + Decimal(n)
  }

  /** An identifier as it reads. */
  lemma MockIdReads()
    ensures MockId("service", 101) == "service-mock-101"
  {
    assert Decimal(101) == Decimal(10) + "1" && Decimal(10) == Decimal(1) + "0" && Decimal(1) == "1";
  }

  /** Different sequence numbers never give the same identifier, whatever the prefixes. */
  lemma MockIdTellsNumber(p: string, m: nat, q: string, n: nat)
    requires MockId(p, m) == MockId(q, n)
    ensures m == n
  {
    var s, a, b := MockId(p, m), Decimal(m), Decimal(n);
    var i, j := |s| - |a|, |s| - |b|;
    assert s[i - 1] == '-' && s[j - 1] == '-';
    assert s[i..] == a && s[j..] == b;
    assert forall k :: i <= k < |s| ==> s[k] == a[k - i];
    assert forall k :: j <= k < |s| ==> s[k] == b[k - j];
    assert i == j;
    DecimalIsInjective(m, n);
  }

  /** `id` cannot be handed out any more once the sequence stands at `sequence`. */
  ghost predicate Spent(id: string, sequence: nat) {
    forall prefix, n: nat :: n > sequence ==> id != MockId(prefix, n)
  }

  lemma MockIdIsSpent(prefix: string, n: nat, sequence: nat)
    requires n <= sequence
    ensures Spent(MockId(prefix, n), sequence)
  {
    forall q, m: nat | m > sequence
      ensures MockId(prefix, n) != MockId(q, m)
    {
      if MockId(prefix, n) == MockId(q, m) { MockIdTellsNumber(prefix, n, q, m); }
    }
  }

  /** Seeded identifiers end in a letter and so are never handed out. */
  lemma SeededIsSpent(id: string, sequence: nat)
    requires id != "" && !IsDigit(id[|id| - 1])
    ensures Spent(id, sequence)
  {
    forall prefix, n: nat | n > sequence
      ensures id != MockId(prefix, n)
    {
      var t := MockId(prefix, n);
      assert t[|t| - 1] == Decimal(n)[|Decimal(n)| - 1];
    }
  }
}
