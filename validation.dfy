/** The required-column check both scripts run when a table is loaded. */
module Validation {
  import opened Wrappers

  /** Walks `required` in order and stops at the first name that is not a
      column; passes when every required name is present. */
  method CheckRequired(required: seq<string>, columns: set<string>) returns (o: Outcome<Error>)
    ensures o.Pass? <==> forall c | c in required :: c in columns
    ensures o.Fail? ==> exists k | 0 <= k < |required| ::
                          && required[k] !in columns
                          && (forall j | 0 <= j < k :: required[j] in columns)
                          && o.error == MissingColumn(required[k])
  {
    for k := 0 to |required|
      invariant forall j | 0 <= j < k :: required[j] in columns
    {
      if required[k] !in columns {
        return Fail(MissingColumn(required[k]));
      }
    }
    return Pass;
  }
}
