/** Vocabulary shared by the hub's components. Source: pkg/types/types.go. */
module Fleet {
  type ClusterId = string
  type TenantId = string
  type Time = int   // nanoseconds

  datatype Health = Unknown | Healthy | Degraded | Unreachable

  function HealthName(h: Health): string {
    match h
    case Unknown => "unknown"
    case Healthy => "healthy"
    case Degraded => "degraded"
    case Unreachable => "unreachable"
  }

  /** store.DefaultTenantID and normalizeTenantID */
  function NormalizeTenant(tenant: TenantId): TenantId { if tenant == "" then "default" else tenant }
}
