/**
 * The completion-rate colour classes. The three functions share the
 * thresholds 80, 60 and 40, so each picks its class from one bucket.
 * A rate is a JavaScript number, modelled as an exact real.
 */
module GetColors {

  datatype Bucket = Red | Yellow | Blue | Green

  /** The bucket the thresholds select; below 40, negatives included, is red. */
  function BucketOf(rate: real): (b: Bucket)
    ensures b == Green <==> rate >= 80.0
    ensures b == Blue <==> 60.0 <= rate < 80.0
    ensures b == Yellow <==> 40.0 <= rate < 60.0
    ensures b == Red <==> rate < 40.0
  {
    if rate >= 80.0 then Green
    else if rate >= 60.0 then Blue
    else if rate >= 40.0 then Yellow
    else Red
  }

  function Rank(b: Bucket): nat {
    match b
    case Red => 0
    case Yellow => 1
    case Blue => 2
    case Green => 3
  }

  /** `getCompletionRateColor` */
  function CompletionRateColor(rate: real): (c: string)
    ensures c == "text-green-600" <==> rate >= 80.0
    ensures c == "text-blue-600" <==> 60.0 <= rate < 80.0
    ensures c == "text-yellow-600" <==> 40.0 <= rate < 60.0
    ensures c == "text-red-600" <==> rate < 40.0
  {
    if rate >= 80.0 then "text-green-600"
    else if rate >= 60.0 then "text-blue-600"
    else if rate >= 40.0 then "text-yellow-600"
    else "text-red-600"
  }

  /** `getCompletionRateBackground` */
  function CompletionRateBackground(rate: real): (c: string)
    ensures c == "bg-green-100" <==> rate >= 80.0
    ensures c == "bg-blue-100" <==> 60.0 <= rate < 80.0
    ensures c == "bg-yellow-100" <==> 40.0 <= rate < 60.0
    ensures c == "bg-red-100" <==> rate < 40.0
  {
    if rate >= 80.0 then "bg-green-100"
    else if rate >= 60.0 then "bg-blue-100"
    else if rate >= 40.0 then "bg-yellow-100"
    else "bg-red-100"
  }

  /** `getProgressRateBackground` */
  function ProgressRateBackground(rate: real): (c: string)
    ensures c == "bg-green-500" <==> rate >= 80.0
    ensures c == "bg-blue-500" <==> 60.0 <= rate < 80.0
    ensures c == "bg-yellow-500" <==> 40.0 <= rate < 60.0
    ensures c == "bg-red-500" <==> rate < 40.0
  {
    if rate >= 80.0 then "bg-green-500"
    else if rate >= 60.0 then "bg-blue-500"
    else if rate >= 40.0 then "bg-yellow-500"
    else "bg-red-500"
  }

  function TextClass(b: Bucket): string {
    match b
    case Green => "text-green-600"
    case Blue => "text-blue-600"
    case Yellow => "text-yellow-600"
    case Red => "text-red-600"
  }

  function BackgroundClass(b: Bucket): string {
    match b
    case Green => "bg-green-100"
    case Blue => "bg-blue-100"
    case Yellow => "bg-yellow-100"
    case Red => "bg-red-100"
  }

  function ProgressClass(b: Bucket): string {
    match b
    case Green => "bg-green-500"
    case Blue => "bg-blue-500"
    case Yellow => "bg-yellow-500"
    case Red => "bg-red-500"
  }

  /** All three functions pick the class of the same bucket. */
  lemma SameBucket(rate: real)
    ensures CompletionRateColor(rate) == TextClass(BucketOf(rate))
    ensures CompletionRateBackground(rate) == BackgroundClass(BucketOf(rate))
    ensures ProgressRateBackground(rate) == ProgressClass(BucketOf(rate))
  {
  }

  /** A higher rate never gets a lower bucket. */
  lemma BucketMonotone(r1: real, r2: real)
    requires r1 <= r2
    ensures Rank(BucketOf(r1)) <= Rank(BucketOf(r2))
  {
  }

  /** For a summary rate kept in hundredths of a percent, the buckets start at 4000, 6000 and 8000. */
  lemma HundredthsBuckets(h: nat)
    ensures BucketOf(h as real / 100.0) == Green <==> h >= 8000
    ensures BucketOf(h as real / 100.0) == Red <==> h < 4000
  {
  }
}
