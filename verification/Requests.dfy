/** Delivery targets and the checks on a pushed job: delayquene/types.go, and the URL functions of grpc.go. */
module Requests {
  import opened Wrappers

  datatype Kind = HTTP | GRPC

  // guaproto.DeliveryType, as a request may carry it.
  datatype DeliveryType = Known(kind: Kind) | UnknownType

  function KindText(kind: Kind): string {
    if kind == HTTP then "HTTP" else "GRPC"
  }

  // \s of Go's regexp package
  predicate RegexpSpace(c: char) {
    c == '\t' || c == '\n' || c == '\U{0C}' || c == '\r' || c == ' '
  }

  predicate IsTarget(s: string) {
    s != [] && forall i :: 0 <= i < |s| ==> !RegexpSpace(s[i])
  }

  // ^(HTTP|GRPC)@(\S+)$
  function SplitRequestURL(url: string): Option<(Kind, string)> {
    if "HTTP@" <= url && IsTarget(url[5..]) then Some((HTTP, url[5..]))
    else if "GRPC@" <= url && IsTarget(url[5..]) then Some((GRPC, url[5..]))
    else None
  }

  // None stands for ErrInvalid.
  function BuildRequestURL(d: DeliveryType, target: string): Option<string> {
    match d
    case UnknownType => None
    case Known(kind) => if target == "" then None else Some(KindText(kind) + "@" + target)
  }

  function TrimPrefix(s: string, prefix: string): string {
    if prefix <= s then s[|prefix|..] else s
  }

  function ParseRequestURL(url: string): (Kind, string) {
    if "GRPC@" <= url then (GRPC, TrimPrefix(url, "GRPC@")) else (HTTP, TrimPrefix(url, "HTTP@"))
  }

  // A printed URL parses back; the queue accepts it exactly when its target has no white space.
  lemma BuiltURLParsesBack(kind: Kind, target: string)
    requires target != ""
    ensures var url := BuildRequestURL(Known(kind), target);
      && url.Some?
      && ParseRequestURL(url.value) == (kind, target)
      && SplitRequestURL(url.value) == (if IsTarget(target) then Some((kind, target)) else None)
  {
    var url := KindText(kind) + "@" + target;
    assert url[..5] == KindText(kind) + "@";
    assert url[5..] == target;
    assert url[0] == KindText(kind)[0];
  }

  // What is no delivery type, or has no target, is refused.
  lemma RefusedRequests(d: DeliveryType, target: string)
    ensures BuildRequestURL(d, target).None? <==> d.UnknownType? || target == ""
  {
  }

  // A text without either prefix is read as an HTTP target.
  lemma UnprefixedIsHTTP(url: string)
    requires !("HTTP@" <= url) && !("GRPC@" <= url)
    ensures ParseRequestURL(url) == (HTTP, url) && SplitRequestURL(url) == None
  {
  }

  // The URLs that the queue accepts are exactly "HTTP@" or "GRPC@" and a target without white space.
  lemma AcceptedURLs(url: string, kind: Kind, target: string)
    ensures SplitRequestURL(url) == Some((kind, target)) <==>
            && url == (if kind == HTTP then "HTTP@" else "GRPC@") + target && target != []
            && forall i :: 0 <= i < |target| ==> target[i] !in {' ', '\t', '\n', '\r', '\U{0C}'}
  {
    if "HTTP@" <= url { assert url == "HTTP@" + url[5..]; }
    if "GRPC@" <= url { assert url == "GRPC@" + url[5..]; }
    var built := (if kind == HTTP then "HTTP@" else "GRPC@") + target;
    assert built[5..] == target && built[0] == (if kind == HTTP then 'H' else 'G');
  }

  predicate IsOnce(pattern: string) {
    pattern == "" || pattern == "@once"
  }

  predicate NameRune(c: char) {
    'a' <= c <= 'z' || 'A' <= c <= 'Z' || '0' <= c <= '9' || c == '_'
  }

  const MAX_NAME_LEN := 22

  predicate ValidName(s: string) {
    1 <= |s| <= MAX_NAME_LEN && forall i :: 0 <= i < |s| ==> NameRune(s[i])
  }

  // Names are one to 22 runes, each a digit, an ASCII letter of either case, or an underscore.
  lemma AcceptedNames(s: string)
    ensures ValidName(s) <==> 1 <= |s| <= 22 && forall i :: 0 <= i < |s| ==>
      var c := s[i] as int; 48 <= c <= 57 || 65 <= c <= 90 || c == 95 || 97 <= c <= 122
  {
    forall i | 0 <= i < |s|
      ensures NameRune(s[i]) <==> var c := s[i] as int; 48 <= c <= 57 || 65 <= c <= 90 || c == 95 || 97 <= c <= 122
    {
      assert '0' as int == 48 && '9' as int == 57 && 'A' as int == 65 && 'Z' as int == 90;
      assert '_' as int == 95 && 'a' as int == 97 && 'z' as int == 122;
    }
  }
}
