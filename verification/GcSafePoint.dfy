/** The admission check of a backup timestamp against the garbage-collection safe points. */
module GcSafePoint {
  import opened NonEmpty

  /** What the coordinator answers: the default tenant's two safe points and those of the other tenants. */
  datatype SafePoints = SafePoints(
    safe: int, resolveLock: int, tenantSafe: map<int, int>, tenantResolveLock: map<int, int>)

  /** The data at `ts` is still there for every tenant, and no transaction up to `ts` is still open. */
  predicate Admitted(ts: int, p: SafePoints) {
    && p.safe < ts && (forall t :: t in p.tenantSafe ==> p.tenantSafe[t] < ts)
    && ts <= p.resolveLock && (forall t :: t in p.tenantResolveLock ==> ts <= p.tenantResolveLock[t])
  }

  /** `GetGcSafePoint`: fold the tenants into one maximum and one minimum, then compare once. */
  method Admit(ts: int, p: SafePoints) returns (ok: bool)
    ensures ok <==> Admitted(ts, p)
  {
    var highest, lowest := p.safe, p.resolveLock;
    var rest := p.tenantSafe.Keys;
    while rest != {}
      invariant rest <= p.tenantSafe.Keys
      invariant p.safe <= highest && (forall t :: t in p.tenantSafe && t !in rest ==> p.tenantSafe[t] <= highest)
      invariant highest == p.safe || exists t :: t in p.tenantSafe && highest == p.tenantSafe[t]
      decreases rest
    {
      SomeInt(rest);
      var t :| t in rest;
      if p.tenantSafe[t] > highest {
        highest := p.tenantSafe[t];
      }
      rest := rest - {t};
    }
    rest := p.tenantResolveLock.Keys;
    while rest != {}
      invariant rest <= p.tenantResolveLock.Keys
      invariant lowest <= p.resolveLock
      invariant forall t :: t in p.tenantResolveLock && t !in rest ==> lowest <= p.tenantResolveLock[t]
      invariant lowest == p.resolveLock || exists t :: t in p.tenantResolveLock && lowest == p.tenantResolveLock[t]
      decreases rest
    {
      SomeInt(rest);
      var t :| t in rest;
      if p.tenantResolveLock[t] < lowest {
        lowest := p.tenantResolveLock[t];
      }
      rest := rest - {t};
    }
    ok := ts > highest && ts <= lowest;
  }
}
