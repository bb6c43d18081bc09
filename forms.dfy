/** Posted forms and query strings: maps from field names to the text posted. */
module Forms {
  import opened Base

  /** `request.POST.get(key)`. */
  function Get(data: map<string, string>, key: string): Option<string> {
    if key in data then Some(data[key]) else None
  }

  /** `request.POST.get(key, default)`. */
  function GetOr(data: map<string, string>, key: string, default: string): string {
    if key in data then data[key] else default
  }

  /** The field was posted with a non-empty value (`if data.get(key)`). */
  predicate Filled(data: map<string, string>, key: string) {
    key in data && data[key] != ""
  }
}
