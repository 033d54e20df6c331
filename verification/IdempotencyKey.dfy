/**
  The Idempotency-Key of a decision. SHA-256 is taken to be injective, so a digest is modelled
  by the text that was hashed.
 */
module IdempotencyKey {
  import opened Text
  import opened Json
  import opened JsonText

  function DecisionWindowStart(now: nat, windowSeconds: nat): nat
    requires windowSeconds > 0
  {
    now - now % windowSeconds
  }

  /** The window of a time is the multiple of the window's length that the time lies in. */
  lemma WindowMeans(now: nat, windowSeconds: nat)
    requires windowSeconds > 0
    ensures var w := DecisionWindowStart(now, windowSeconds);
            w <= now < w + windowSeconds && exists q: nat :: w == q * windowSeconds
  {
    assert DecisionWindowStart(now, windowSeconds) == now / windowSeconds * windowSeconds;
  }

  datatype Digest = Sha256(input: string)

  function DeterministicIdempotencyKey(
    tenant: string, workload: string, typeName: string, payload: Json, window: int): Digest
  {
    Sha256(KeyText(tenant, workload, typeName, payload, window))
  }

  /** The text that is hashed: five parts, the payload in canonical form. */
  function KeyText(tenant: string, workload: string, typeName: string, payload: Json, window: int): string {
    tenant + "|" + (workload + "|" + (typeName + "|" + (Print(Canonical(payload)) + "|" + Decimal(window))))
  }

  /** The hashed text is the tenant, the workload, the type, the canonical payload and the window, in this order, between bars. */
  lemma KeyTextHolds(tenant: string, workload: string, typeName: string, payload: Json, window: int)
    ensures DeterministicIdempotencyKey(tenant, workload, typeName, payload, window).input
            == tenant + "|" + workload + "|" + typeName + "|" + Print(Canonical(payload)) + "|" + Decimal(window)
  {
    hide Print, Canonical, Decimal;
    var p, d := Print(Canonical(payload)), Decimal(window);
    assert tenant + "|" + (workload + "|" + (typeName + "|" + (p + "|" + d))) == tenant + "|" + workload + "|" + typeName + "|" + p + "|" + d;
  }

  /** The key tells apart any two decisions, except in the member order of their payloads. */
  lemma KeyInjective(
    tenant: string, workload: string, typeName: string, payload: Json, window: int,
    tenant': string, workload': string, typeName': string, payload': Json, window': int)
    requires '|' !in tenant && '|' !in workload && '|' !in typeName
    requires '|' !in tenant' && '|' !in workload' && '|' !in typeName'
    requires WellFormed(payload) && WellFormed(payload')
    ensures DeterministicIdempotencyKey(tenant, workload, typeName, payload, window)
            == DeterministicIdempotencyKey(tenant', workload', typeName', payload', window')
            <==> tenant == tenant' && workload == workload' && typeName == typeName'
                 && Same(payload, payload') && window == window'
  {
    CanonicalIffSame(payload, payload');
    if DeterministicIdempotencyKey(tenant, workload, typeName, payload, window)
       == DeterministicIdempotencyKey(tenant', workload', typeName', payload', window') {
      var p, p' := Print(Canonical(payload)), Print(Canonical(payload'));
      var z, z' := p + "|" + Decimal(window), p' + "|" + Decimal(window');
      CutFirst(tenant, workload + "|" + (typeName + "|" + z), tenant', workload' + "|" + (typeName' + "|" + z'), '|');
      CutFirst(workload, typeName + "|" + z, workload', typeName' + "|" + z', '|');
      CutFirst(typeName, z, typeName', z', '|');
      DecimalFacts(window);
      DecimalFacts(window');
      CutLast(p, Decimal(window), p', Decimal(window'), '|');
      DecimalInjective(window, window');
      PrintInjective(Canonical(payload), Canonical(payload'));
    }
  }

  ghost predicate NoOtherPair(tenant: string, workload: string, typeName: string, payload: Json, window: int) {
    forall t: string, w: string ::
      DeterministicIdempotencyKey(t, w, typeName, payload, window)
      == DeterministicIdempotencyKey(tenant, workload, typeName, payload, window)
      ==> t == tenant && w == workload
  }

  lemma SuffixCancels(a: string, b: string, z: string)
    ensures a + z == b + z <==> a == b
  {
    if a + z == b + z {
      assert |a| == |b|;
      assert (a + z)[..|a|] == a && (b + z)[..|b|] == b;
    }
  }

  lemma PairPart(tenant: string, workload: string, typeName: string, payload: Json, window: int)
    ensures var z := "|" + (typeName + "|" + (Print(Canonical(payload)) + "|" + Decimal(window)));
            KeyText(tenant, workload, typeName, payload, window) == (tenant + "|" + workload) + z
  {
    var y := typeName + "|" + (Print(Canonical(payload)) + "|" + Decimal(window));
    assert tenant + "|" + (workload + "|" + y) == (tenant + "|" + workload) + ("|" + y);
  }

  ghost predicate NoOtherSplit(tenant: string, workload: string) {
    forall t: string, w: string :: t + "|" + w == tenant + "|" + workload ==> t == tenant && w == workload
  }

  lemma NoOtherSplitIff(tenant: string, workload: string)
    ensures NoOtherSplit(tenant, workload) <==> '|' !in tenant && '|' !in workload
  {
    if i :| 0 <= i < |tenant| && tenant[i] == '|' {
      var t, w := tenant[..i], tenant[i + 1..] + "|" + workload;
      assert t + "|" + w == tenant + "|" + workload by {
        assert tenant == tenant[..i] + "|" + tenant[i + 1..];
      }
      assert |t| < |tenant|;
    } else if i :| 0 <= i < |workload| && workload[i] == '|' {
      var t, w := tenant + "|" + workload[..i], workload[i + 1..];
      assert t + "|" + w == tenant + "|" + workload by {
        assert workload == workload[..i] + "|" + workload[i + 1..];
      }
      assert |w| < |workload|;
    } else {
      forall t: string, w: string | t + "|" + w == tenant + "|" + workload ensures t == tenant && w == workload {
        OneSeparator(tenant, workload, t, w);
      }
    }
  }

  /**
    A tenant and workload share their keys with no other pair exactly when neither name holds the
    separator. Nothing in the source keeps the separator out of names.
   */
  lemma PairUniqueIff(tenant: string, workload: string, typeName: string, payload: Json, window: int)
    ensures NoOtherPair(tenant, workload, typeName, payload, window) <==> '|' !in tenant && '|' !in workload
  {
    NoOtherSplitIff(tenant, workload);
    forall t: string, w: string
      ensures DeterministicIdempotencyKey(t, w, typeName, payload, window)
              == DeterministicIdempotencyKey(tenant, workload, typeName, payload, window)
              <==> t + "|" + w == tenant + "|" + workload
    {
      SamePair(t, w, tenant, workload, typeName, payload, window);
    }
  }

  lemma SamePair(t: string, w: string, tenant: string, workload: string, typeName: string, payload: Json, window: int)
    ensures DeterministicIdempotencyKey(t, w, typeName, payload, window)
            == DeterministicIdempotencyKey(tenant, workload, typeName, payload, window)
            <==> t + "|" + w == tenant + "|" + workload
  {
    var z := "|" + (typeName + "|" + (Print(Canonical(payload)) + "|" + Decimal(window)));
    PairPart(tenant, workload, typeName, payload, window);
    PairPart(t, w, typeName, payload, window);
    SuffixCancels(t + "|" + w, tenant + "|" + workload, z);
  }

  lemma OneSeparator(a: string, b: string, t: string, w: string)
    requires '|' !in a && '|' !in b && t + "|" + w == a + "|" + b
    ensures t == a && w == b
  {
    var l := a + "|" + b;
    assert forall i :: 0 <= i < |l| && l[i] == '|' ==> i == |a|;
    assert (t + "|" + w)[|t|] == '|';
    assert l[..|a|] == a && l[|a| + 1..] == b;
    assert (t + "|" + w)[..|t|] == t && (t + "|" + w)[|t| + 1..] == w;
  }
}
