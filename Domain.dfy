/** Enumerations of the application's database schema that several screens share:
    the order status and the user role. */
module Domain {

  /** The `order_status` enumeration, in its declared order. */
  datatype OrderStatus = Pending | Confirmed | Preparing | RiderAssigned | OnTheWay | Delivered | Cancelled

  /** The string each status is stored and compared as. */
  function StatusName(s: OrderStatus): string {
    match s
    case Pending => "pending"
    case Confirmed => "confirmed"
    case Preparing => "preparing"
    case RiderAssigned => "rider_assigned"
    case OnTheWay => "on_the_way"
    case Delivered => "delivered"
    case Cancelled => "cancelled"
  }

  /** Distinct statuses have distinct names, so comparing names compares statuses. */
  lemma StatusNameInjective(s: OrderStatus, t: OrderStatus)
    ensures StatusName(s) == StatusName(t) <==> s == t
  {
  }

  /** The `app_role` enumeration. */
  datatype AppRole = Student | CafeteriaAdmin | SuperAdmin

  function RoleName(r: AppRole): string {
    match r
    case Student => "student"
    case CafeteriaAdmin => "cafeteria_admin"
    case SuperAdmin => "super_admin"
  }

  /** `hasRole(r)` of the signed-in user, whose role rows are the set `roles`. */
  predicate HasRole(roles: set<AppRole>, r: AppRole) {
    r in roles
  }
}
