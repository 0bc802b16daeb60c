/** What an order's card derives from the order: whether its budget has
    expired, and the style of its priority badge. */
module Card {
  import opened Common
  import opened Orders

  /** An unapproved order whose budget expiry date is set (and non-zero) is
      expired once the clock is strictly past that date. Only an unapproved
      order with a deadline the clock has passed can show as expired, and
      every such order with a positive deadline does. */
  function IsExpired(t: Task, now: int): (expired: bool)
    ensures expired ==> !t.isApproved && t.budgetExpiryDate.Some? && now > t.budgetExpiryDate.value
    ensures !t.isApproved && t.budgetExpiryDate.Some? && 0 < t.budgetExpiryDate.value < now ==> expired
  {
    !t.isApproved && t.budgetExpiryDate.Some? && t.budgetExpiryDate.value != 0
    && now > t.budgetExpiryDate.value
  }

  /** Approval, a missing deadline and a zero deadline each rule expiry out;
      otherwise expiry is exactly being strictly past the deadline, so an
      order is not expired at the deadline itself. */
  lemma ExpiryCases(t: Task, now: int)
    ensures t.isApproved ==> !IsExpired(t, now)
    ensures t.budgetExpiryDate.None? || t.budgetExpiryDate == Some(0) ==> !IsExpired(t, now)
    ensures !t.isApproved && t.budgetExpiryDate.Some? && t.budgetExpiryDate.value != 0 ==>
      (IsExpired(t, now) <==> now > t.budgetExpiryDate.value)
    ensures t.budgetExpiryDate.Some? ==> !IsExpired(t, t.budgetExpiryDate.value)
  {
  }

  /** Once expired, an order stays expired as time passes. */
  lemma ExpiryMonotone(t: Task, now: int, later: int)
    requires now <= later
    ensures IsExpired(t, now) ==> IsExpired(t, later)
  {
  }

  /** The badge colour for a priority. The lookup table covers the four listed
      priorities; an unlisted one finds no entry. */
  function PriorityBadge(p: Priority): (style: Option<string>)
    ensures style.Some? <==> !p.UnlistedPriority?
    ensures style.Some? ==> style.value != ""
  {
    match p
    case Low => Some("bg-slate-700 text-slate-300 border-slate-600")
    case Medium => Some("bg-blue-900/40 text-blue-300 border-blue-700/50")
    case High => Some("bg-orange-900/40 text-orange-300 border-orange-700/50")
    case Urgent => Some("bg-red-900/40 text-red-300 border-red-700/50")
    case UnlistedPriority(_) => None
  }

  /** The four listed priorities get four different badges. */
  lemma BadgesDistinct(p: Priority, q: Priority)
    requires !p.UnlistedPriority? && !q.UnlistedPriority? && p != q
    ensures PriorityBadge(p) != PriorityBadge(q)
  {
  }
}
