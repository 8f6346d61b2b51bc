/** Connector statuses are compared as strings.EqualFold(strings.TrimSpace(status), "Available")
    (internal/ocpp16hal/recovery.go). */
module StatusText {
  /** The characters strings.TrimSpace removes. */
  predicate IsSpace(c: char) {
    '\t' <= c <= '\r' || c == ' ' || c == '\U{85}' || c == '\U{A0}' || c == '\U{1680}' || '\U{2000}' <= c <= '\U{200A}'
    || c == '\U{2028}' || c == '\U{2029}' || c == '\U{202F}' || c == '\U{205F}' || c == '\U{3000}'
  }

  function TrimmedLeft(s: string): string {
    if s != "" && IsSpace(s[0]) then TrimmedLeft(s[1..]) else s
  }

  function TrimmedRight(s: string): string {
    if s != "" && IsSpace(s[|s| - 1]) then TrimmedRight(s[..|s| - 1]) else s
  }

  /** No letter of "available" folds to anything but its two ASCII cases. */
  function Fold(c: char): char {
    if 'A' <= c <= 'Z' then 'a' + (c - 'A') else c
  }

  predicate SameFolded(a: string, b: string) {
    |a| == |b| && forall i :: 0 <= i < |a| ==> Fold(a[i]) == Fold(b[i])
  }

  predicate IsAvailable(status: string) {
    SameFolded(TrimmedRight(TrimmedLeft(status)), "Available")
  }

  lemma AvailableIsAvailable()
    ensures IsAvailable("Available")
  {
    assert TrimmedLeft("Available") == "Available";
    assert TrimmedRight("Available") == "Available";
  }
}
