/**
 * Request validation around a JSON-schema validator: a failed validation
 * becomes `InvalidDataError`, and the per-resource validator strips the
 * server-managed keys from the request dict in place.
 *
 * The schema validator itself is an oracle: a function from the data to the
 * list of errors it reports.
 */
module Validation {
  import opened Wrappers
  import opened Values

  /** `InvalidDataError(message, errors)`. */
  datatype InvalidDataError<E> = InvalidDataError(message: string, errors: seq<E>)

  /** The keys the server manages itself: never taken from a request. */
  const ManagedKeys: set<string> := {"created", "updated", "id"}

  /**
   * `schema_validate(schema_validator, resource_name, data)`: passes exactly
   * when the validator reports no error, and otherwise fails with all of them.
   */
  function SchemaValidate<E>(iterErrors: map<string, Value> -> seq<E>, resourceName: string,
                             data: map<string, Value>): (r: Outcome<InvalidDataError<E>>)
    ensures r.Pass? <==> |iterErrors(data)| == 0
    ensures r.Fail? ==> r.error.message == resourceName + " data not valid" && r.error.errors == iterErrors(data)
  {
    var errors := iterErrors(data);
    if |errors| > 0 then Fail(InvalidDataError(resourceName + " data not valid", errors)) else Pass
  }

  /** The request without the server-managed keys. */
  function Stripped(data: map<string, Value>): (r: map<string, Value>)
    ensures forall k :: k in r <==> k in data && k !in ManagedKeys
    ensures forall k :: k in r ==> r[k] == data[k]
  {
    data - ManagedKeys
  }

  /** Stripping twice strips nothing more. */
  lemma StrippedIdempotent(data: map<string, Value>)
    ensures Stripped(Stripped(data)) == Stripped(data)
  {
    assert Stripped(Stripped(data)).Keys == Stripped(data).Keys;
  }

  /** The stripped request and its managed keys together make up the request. */
  lemma StrippedSplitsData(data: map<string, Value>)
    ensures Stripped(data) + (map k | k in data && k in ManagedKeys :: data[k]) == data
  {
    var m := map k | k in data && k in ManagedKeys :: data[k];
    assert (Stripped(data) + m).Keys == data.Keys;
  }

  /**
   * `_resource_validator(resource_name, validator_spec)`: the closure keeps
   * the resource name and the validator registered for each case.
   */
  datatype ResourceValidator<E> = ResourceValidator(resourceName: string,
                                                    spec: map<string, map<string, Value> -> seq<E>>)
  {
    /** What validation of `data` for the case `action` yields: no validator registered means no check. */
    function Check(data: map<string, Value>, action: string): (r: Outcome<InvalidDataError<E>>)
      ensures action !in spec ==> r == Pass
      ensures action in spec ==> r == SchemaValidate(spec[action], resourceName, data)
    {
      if action in spec then SchemaValidate(spec[action], resourceName, data) else Pass
    }

    /**
     * `resource_validator(config, data, case)`, the case named `action`: on a failed check raises with
     * the dict untouched; otherwise pops `created`, `updated` and `id` (absent
     * ones are no error) and returns the same dict.
     */
    method Validate(data: Dict, action: string) returns (r: Result<Dict, InvalidDataError<E>>)
      modifies data
      ensures Check(old(data.items), action).Fail? ==>
        r == Failure(Check(old(data.items), action).error) && data.items == old(data.items)
      ensures Check(old(data.items), action).Pass? ==>
        r == Success(data) && data.items == Stripped(old(data.items))
    {
      if action in spec {
        var outcome := SchemaValidate(spec[action], resourceName, data.items);
        if outcome.Fail? {
          return Failure(outcome.error);
        }
      }
      data.Pop("created");
      data.Pop("updated");
      data.Pop("id");
      r := Success(data);
    }
  }
}
