/**
 * `StatusIndicator`: a dot and a label for an order status. The colour scheme is a
 * `switch` on the lower-cased status with three known values and a muted default;
 * the label is the status as given.
 */
module StatusIndicator {
  import opened JsText

  datatype StatusConfig = StatusConfig(color: string, glow: string, text: string)

  const DELIVERED := StatusConfig("bg-neon-green", "shadow-[0_0_10px_hsl(127,100%,50%)]", "text-neon-green")
  const IN_PROGRESS := StatusConfig("bg-neon-orange", "shadow-[0_0_10px_hsl(30,100%,50%)]", "text-neon-orange")
  const PENDING := StatusConfig("bg-neon-purple", "shadow-[0_0_10px_hsl(270,100%,50%)]", "text-neon-purple")
  const MUTED := StatusConfig("bg-muted", "", "text-muted-foreground")

  /** The three statuses the switch knows, in lower case. */
  predicate IsKnown(lower: string) {
    lower == "delivered" || lower == "in progress" || lower == "pending"
  }

  /** `getStatusConfig`. */
  function GetStatusConfig(status: string): (c: StatusConfig)
    ensures c == DELIVERED <==> ToLower(status) == "delivered"
    ensures c == IN_PROGRESS <==> ToLower(status) == "in progress"
    ensures c == PENDING <==> ToLower(status) == "pending"
    ensures c == MUTED <==> !IsKnown(ToLower(status))
    ensures c.glow == "" <==> !IsKnown(ToLower(status))
  {
    match ToLower(status)
    case "delivered" => DELIVERED
    case "in progress" => IN_PROGRESS
    case "pending" => PENDING
    case _ => MUTED
  }

  /** What is drawn: the colours for the status and the status text itself, unmodified. */
  datatype Indicator = Indicator(config: StatusConfig, caption: string)

  function Render(status: string): (v: Indicator)
    ensures v.caption == status
    ensures v.config == GetStatusConfig(ToLower(status))
  {
    ToLowerIdempotent(status);
    Indicator(GetStatusConfig(status), status)
  }

  /** Statuses equal up to letter case get the same colours. */
  lemma {:induction false} CaseInsensitive(a: string, b: string)
    requires ToLower(a) == ToLower(b)
    ensures GetStatusConfig(a) == GetStatusConfig(b)
  {
  }

  /** The four configurations are pairwise distinct. */
  lemma {:induction false} ConfigsDistinct()
    ensures DELIVERED != IN_PROGRESS && DELIVERED != PENDING && IN_PROGRESS != PENDING
    ensures MUTED != DELIVERED && MUTED != IN_PROGRESS && MUTED != PENDING
  {
  }
}
