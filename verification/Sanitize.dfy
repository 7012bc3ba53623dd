/** Splitting and cleaning of list items (pkg/routing/sanitize.go).

    Parsing of full URLs is a parameter; `net.SplitHostPort` is only asked about texts without
    a closing bracket, where it finds a port iff there is one colon and no opening bracket. */
module Sanitize {
  import opened Common
  import opened Text

  predicate IsSeparator(c: char) { c == ',' || c == '\n' || c == '\r' || c == ';' || c == ' ' }

  predicate IsUnsplit(s: string) { forall c | c in s :: !IsSeparator(c) }

  // The characters before the first separator.
  function Word(s: string): (w: string)
    ensures w <= s && (s != "" && !IsSeparator(s[0]) ==> w != "")
  {
    if s == "" || IsSeparator(s[0]) then "" else [s[0]] + Word(s[1..])
  }

  function Fields(s: string): seq<string> {
    if s == "" then []
    else if IsSeparator(s[0]) then Fields(s[1..])
    else [Word(s)] + Fields(s[|Word(s)|..])
  }

  function WithoutPort(s: string): string {
    if ':' in s && ']' !in s && '[' !in s && Count(s, ':') == 1 && Until(s, ':') != "" then Until(s, ':') else s
  }

  function HostOf(url: string -> Option<string>, s: string): string {
    if HasPrefix(s, "http://") || HasPrefix(s, "https://") then
      var host := url(s);
      if host.Some? && host.value != "" then host.value else s
    else Until(s, '/')
  }

  // The domain entry of one field; `url` gives the host name of a URL that parses.
  function SanitizeDomain(url: string -> Option<string>, raw: string): string
    decreases |raw|
  {
    var s := TrimSpace(raw);
    TrimIsNoLonger(raw);
    if s == "" then ""
    else if HasPrefix(s, "geosite:") || HasPrefix(s, "regexp:") || HasPrefix(s, "regex:") then s
    else if HasPrefix(s, "domain:") then "domain:" + SanitizeDomain(url, TrimPrefix(s, "domain:"))
    else if HasPrefix(s, "full:") then "full:" + SanitizeDomain(url, TrimPrefix(s, "full:"))
    else if HasPrefix(s, "keyword:") then s
    else ToLower(TrimSpace(TrimPrefix(TrimPrefix(WithoutPort(HostOf(url, s)), "*."), ".")))
  }

  // The cleaned fields of a list item.
  function Pieces(clean: string -> string, item: string): (r: seq<string>)
    ensures |r| == |Fields(item)| && forall i | 0 <= i < |r| :: r[i] == clean(Fields(item)[i])
  {
    seq(|Fields(item)|, i requires 0 <= i < |Fields(item)| => clean(Fields(item)[i]))
  }

  // ---------------------------------------------------------------------------------------
  // White space around an item
  // ---------------------------------------------------------------------------------------

  // Cleaning that starts by trimming the field.
  function Trimmed(clean: string -> string): string -> string { p => clean(TrimSpace(p)) }

  // The same entries, apart from empty ones.
  ghost predicate SamePieces(clean: string -> string, a: string, b: string) {
    forall x | x != "" :: x in Pieces(clean, a) <==> x in Pieces(clean, b)
  }

  predicate FieldGives(clean: string -> string, fields: seq<string>, x: string) {
    exists f | f in fields :: clean(f) == x
  }

  lemma PieceIsCleanedField(clean: string -> string, item: string, x: string)
    ensures x in Pieces(clean, item) <==> FieldGives(clean, Fields(item), x)
  {
    if x in Pieces(clean, item) {
      var i :| 0 <= i < |Fields(item)| && Pieces(clean, item)[i] == x;
      assert Fields(item)[i] in Fields(item);
    }
    if FieldGives(clean, Fields(item), x) {
      var f :| f in Fields(item) && clean(f) == x;
      var i :| 0 <= i < |Fields(item)| && Fields(item)[i] == f;
      assert Pieces(clean, item)[i] == x;
    }
  }

  // Fields that differ in one that is cleaned alike, or to nothing.
  lemma AlikeInFirst(clean: string -> string, a: string, b: string, f: string, g: string, rest: seq<string>)
    requires Fields(a) == [f] + rest
    requires if Fields(b) == rest then clean(f) == "" else Fields(b) == [g] + rest && clean(f) == clean(g)
    ensures SamePieces(clean, a, b)
  {
    forall x | x != "" ensures x in Pieces(clean, a) <==> x in Pieces(clean, b) {
      PieceIsCleanedField(clean, a, x);
      PieceIsCleanedField(clean, b, x);
      assert forall q :: q in [f] + rest <==> q == f || q in rest;
      assert forall q :: q in [g] + rest <==> q == g || q in rest;
    }
  }

  lemma SpaceInFront(clean: string -> string, s: string)
    requires s != "" && IsSpace(s[0]) && clean("") == ""
    ensures SamePieces(Trimmed(clean), s, s[1..])
  {
    if !IsSeparator(s[0]) {
      var u := Word(s[1..]);
      var w := Word(s);
      assert w == [s[0]] + u && s[|w|..] == s[1..][|u|..];
      assert TrimSpace(w) == TrimSpace(u) by { assert w[1..] == u; }
      if u == "" {
        assert w[1..] == "" && TrimSpace(w) == "";
        assert s[1..] == "" || IsSeparator(s[1]);
        assert s[|w|..] == s[1..];
      }
      AlikeInFirst(Trimmed(clean), s, s[1..], w, u, Fields(s[|w|..]));
    }
  }

  lemma {:induction false} SpacesInFront(clean: string -> string, s: string)
    requires clean("") == ""
    ensures SamePieces(Trimmed(clean), s, TrimLeft(s))
  {
    if s != "" && IsSpace(s[0]) {
      SpaceInFront(clean, s);
      SpacesInFront(clean, s[1..]);
    }
  }

  lemma {:induction false} TrimWithSpace(s: string, c: char)
    requires IsSpace(c)
    ensures TrimSpace(s + [c]) == TrimSpace(s)
  {
    var t := s + [c];
    if s == "" {
      assert t[1..] == "";
    } else if IsSpace(s[0]) {
      assert t[1..] == s[1..] + [c];
      TrimWithSpace(s[1..], c);
    } else {
      assert t[..|t| - 1] == s;
    }
  }

  lemma {:induction false} WordOfLonger(s: string, c: char)
    ensures Word(s + [c]) == if |Word(s)| < |s| || IsSeparator(c) then Word(s) else s + [c]
    ensures |Word(s)| < |s| ==> IsSeparator(s[|Word(s)|])
  {
    if s == "" {
      assert s + [c] == [c];
      assert [c][1..] == "";
    } else if !IsSeparator(s[0]) {
      assert (s + [c])[1..] == s[1..] + [c];
      WordOfLonger(s[1..], c);
    }
  }

  lemma {:induction false} SpaceBehind(clean: string -> string, s: string, c: char)
    requires IsSpace(c) && clean("") == ""
    ensures SamePieces(Trimmed(clean), s + [c], s)
    decreases |s|
  {
    var t := s + [c];
    if s == "" {
      assert t == [c] && t[1..] == "";
      if !IsSeparator(c) {
        assert Word(t) == t && t[|t|..] == "";
        TrimWithSpace("", c);
        assert TrimSpace(t) == "";
        AlikeInFirst(Trimmed(clean), t, s, t, t, []);
      }
    } else if IsSeparator(s[0]) {
      assert t[1..] == s[1..] + [c] && t[0] == s[0];
      SpaceBehind(clean, s[1..], c);
      assert Pieces(Trimmed(clean), t) == Pieces(Trimmed(clean), t[1..]);
      assert Pieces(Trimmed(clean), s) == Pieces(Trimmed(clean), s[1..]);
    } else {
      SpaceBehindWord(clean, s, c);
    }
  }

  lemma {:induction false} SpaceBehindWord(clean: string -> string, s: string, c: char)
    requires IsSpace(c) && clean("") == "" && s != "" && !IsSeparator(s[0])
    ensures SamePieces(Trimmed(clean), s + [c], s)
    decreases |s|, 0
  {
    var t, w := s + [c], Word(s);
    WordOfLonger(s, c);
    if |w| < |s| {
      assert t[|w|..] == s[|w|..] + [c];
      SpaceBehind(clean, s[|w|..], c);
      SameFirstField(Trimmed(clean), t, s, w, t[|w|..], s[|w|..]);
    } else {
      assert w == s && s[|s|..] == "" && Fields(s) == [s] + [];
      TrimWithSpace(s, c);
      if IsSeparator(c) {
        assert t[|s|..] == [c] && [c][1..] == "";
        assert Fields(t) == [s] + [];
      } else {
        assert t[|t|..] == "";
        AlikeInFirst(Trimmed(clean), t, s, t, s, []);
      }
    }
  }

  lemma SameFirstField(clean: string -> string, a: string, b: string, f: string, restA: string, restB: string)
    requires Fields(a) == [f] + Fields(restA) && Fields(b) == [f] + Fields(restB)
    requires SamePieces(clean, restA, restB)
    ensures SamePieces(clean, a, b)
  {
    forall x | x != "" ensures x in Pieces(clean, a) <==> x in Pieces(clean, b) {
      PieceIsCleanedField(clean, a, x);
      PieceIsCleanedField(clean, b, x);
      PieceIsCleanedField(clean, restA, x);
      PieceIsCleanedField(clean, restB, x);
      assert forall q :: q in [f] + Fields(restA) <==> q == f || q in Fields(restA);
      assert forall q :: q in [f] + Fields(restB) <==> q == f || q in Fields(restB);
    }
  }

  lemma {:induction false} SpacesBehind(clean: string -> string, s: string)
    requires clean("") == ""
    ensures SamePieces(Trimmed(clean), s, TrimRight(s))
  {
    if s != "" && IsSpace(s[|s| - 1]) {
      var init := s[..|s| - 1];
      assert s == init + [s[|s| - 1]];
      SpaceBehind(clean, init, s[|s| - 1]);
      SpacesBehind(clean, init);
    }
  }

  /** White space around an item does not change the entries it stands for. */
  lemma TrimmedItemIsTheSame(clean: string -> string, item: string)
    requires clean("") == ""
    ensures SamePieces(Trimmed(clean), item, TrimSpace(item))
  {
    SpacesInFront(clean, item);
    SpacesBehind(clean, TrimLeft(item));
  }

  // ---------------------------------------------------------------------------------------
  // Items that are cleaned to themselves
  // ---------------------------------------------------------------------------------------

  // A host name as it should be written.
  predicate IsName(d: string) {
    && d != "" && Tight(d) && d[0] != '.' && !HasPrefix(d, "*.")
    && forall c | c in d :: !IsSeparator(c) && c != ':' && c != '/' && LowerChar(c) == c
  }

  lemma {:induction false} WordOfUnsplit(s: string)
    requires IsUnsplit(s)
    ensures Word(s) == s
  {
    if s != "" {
      WordOfUnsplit(s[1..]);
      assert s == [s[0]] + s[1..];
    }
  }

  lemma {:induction false} WordStops(s: string, rest: string)
    requires Word(s) == s && rest != "" && IsSeparator(rest[0])
    ensures Word(s + rest) == s
  {
    if s == "" {
      assert s + rest == rest;
    } else {
      assert (s + rest)[1..] == s[1..] + rest && Word(s[1..]) == s[1..];
      WordStops(s[1..], rest);
    }
  }

  lemma UnsplitIsOneField(s: string)
    requires s != "" && IsUnsplit(s)
    ensures Fields(s) == [s]
  {
    WordOfUnsplit(s);
    assert s[|s|..] == "";
  }

  lemma {:induction false} UntilOfAbsent(s: string, c: char)
    requires c !in s
    ensures Until(s, c) == s
  {
    if s != "" {
      UntilOfAbsent(s[1..], c);
      assert s == [s[0]] + s[1..];
    }
  }

  lemma PrefixNeedsColon(s: string, mark: string)
    requires ':' !in s && ':' in mark
    ensures !HasPrefix(s, mark)
  {}

  /** A host name is cleaned to itself, with or without the label `domain:`. */
  lemma NamesAreKept(url: string -> Option<string>, d: string)
    requires IsName(d)
    ensures SanitizeDomain(url, d) == d && SanitizeDomain(url, "domain:" + d) == "domain:" + d
    ensures Fields(d) == [d] && Fields("domain:" + d) == ["domain:" + d]
  {
    TightIsTrimmed(d);
    PrefixNeedsColon(d, "geosite:");
    PrefixNeedsColon(d, "regexp:");
    PrefixNeedsColon(d, "regex:");
    PrefixNeedsColon(d, "domain:");
    PrefixNeedsColon(d, "full:");
    PrefixNeedsColon(d, "keyword:");
    PrefixNeedsColon(d, "http://");
    PrefixNeedsColon(d, "https://");
    UntilOfAbsent(d, '/');
    assert ToLower(d) == d;
    assert SanitizeDomain(url, d) == d;
    UnsplitIsOneField(d);
    LabelledIsKept(url, d);
  }

  lemma LabelledIsKept(url: string -> Option<string>, d: string)
    requires IsName(d) && SanitizeDomain(url, d) == d
    ensures SanitizeDomain(url, "domain:" + d) == "domain:" + d && Fields("domain:" + d) == ["domain:" + d]
  {
    var s := "domain:" + d;
    assert s[0] == 'd' && s[|s| - 1] == d[|d| - 1];
    TightIsTrimmed(s);
    assert s[..7] == "domain:" && s[7..] == d;
    assert !HasPrefix(s, "geosite:") && !HasPrefix(s, "regexp:") && !HasPrefix(s, "regex:");
    UnsplitIsOneField(s);
  }

  lemma PortIsStripped(host: string, port: string)
    requires ':' !in host && ':' !in port && host != ""
    requires ']' !in host + port && '[' !in host + port
    ensures WithoutPort(host + ":" + port) == host
  {
    var s, i := host + ":" + port, |host|;
    assert s[i] == ':' && s[..i] == host && s[i + 1..] == port;
    UntilAt(s, ':', i);
    CountAt(s, ':', i);
    assert forall c | c in s :: c in host + port || c == ':';
  }

  // None of the labels and schemes that the cleaning knows.
  predicate IsUnmarked(s: string) {
    && !HasPrefix(s, "geosite:") && !HasPrefix(s, "regexp:") && !HasPrefix(s, "regex:")
    && !HasPrefix(s, "domain:") && !HasPrefix(s, "full:") && !HasPrefix(s, "keyword:")
    && !HasPrefix(s, "http://") && !HasPrefix(s, "https://")
  }

  lemma UnmarkedIsStripped(url: string -> Option<string>, s: string)
    requires s != "" && Tight(s) && IsUnmarked(s)
    ensures SanitizeDomain(url, s) ==
            ToLower(TrimSpace(TrimPrefix(TrimPrefix(WithoutPort(Until(s, '/')), "*."), ".")))
  {
    TightIsTrimmed(s);
  }

  lemma NameIsStripped(host: string)
    requires IsName(host)
    ensures ToLower(TrimSpace(TrimPrefix(TrimPrefix(host, "*."), "."))) == host
  {
    TightIsTrimmed(host);
    assert ToLower(host) == host;
  }

  /** A name with a port, or with a label the code does not know, is cleaned to what precedes the
      colon. */
  lemma PortIsLost(url: string -> Option<string>, host: string, port: string)
    requires IsName(host) && ':' !in port && '/' !in port && Tight(host + ":" + port)
    requires ']' !in host + port && '[' !in host + port && IsUnmarked(host + ":" + port)
    ensures SanitizeDomain(url, host + ":" + port) == host
  {
    var s := host + ":" + port;
    UnmarkedIsStripped(url, s);
    UntilOfAbsent(s, '/');
    PortIsStripped(host, port);
    NameIsStripped(host);
  }

  /** So the label `suffix:` is all that is left of an entry that carries it. */
  lemma SuffixLabelIsLost(url: string -> Option<string>)
    ensures SanitizeDomain(url, "suffix:ads.org") == "suffix"
  {
    var s := "suffix" + ":" + "ads.org";
    assert s == "suffix:ads.org" && s[0] == 's';
    PortIsLost(url, "suffix", "ads.org");
  }

  /** A URL is cleaned to its host. */
  lemma UrlIsCleanedToItsHost(url: string -> Option<string>, e: string, host: string)
    requires Tight(e) && (HasPrefix(e, "http://") || HasPrefix(e, "https://"))
    requires url(e) == Some(host) && IsName(host)
    ensures SanitizeDomain(url, e) == host
  {
    TightIsTrimmed(e);
    assert e[0] == 'h' && e != "";
    ColonIsAbsent(host);
    NameIsStripped(host);
  }

  lemma ColonIsAbsent(host: string)
    requires ':' !in host
    ensures WithoutPort(host) == host
  {}

  // A dot or a wildcard in front.
  lemma MarksGo(mark: string, n: string)
    requires mark in ["", ".", "*."] && n != "" && n[0] != '.' && !HasPrefix(n, "*.")
    ensures TrimPrefix(TrimPrefix(mark + n, "*."), ".") == n
  {
    assert "" + n == n;
    assert mark == "." ==> (mark + n)[0] == '.' && TrimPrefix(mark + n, ".") == n;
    assert mark == "*." ==> HasPrefix(mark + n, "*.") && TrimPrefix(mark + n, "*.") == n;
  }

  lemma SameMarks(written: string, n: string)
    requires ToLower(written) == n && IsName(n)
    ensures written != "" && written[0] != '.' && !HasPrefix(written, "*.") && Tight(written)
    ensures '/' !in written && ':' !in written
  {
    assert |written| == |n| && LowerChar(written[0]) == n[0] && LowerChar(written[|n| - 1]) == n[|n| - 1];
    assert |n| > 1 ==> n[1] == LowerChar(written[1]);
    forall i | 0 <= i < |written| ensures written[i] != '/' && written[i] != ':' {
      assert n[i] in n && n[i] == LowerChar(written[i]);
    }
  }

  /** Capitals, a leading dot or wildcard and a path are cleaned away. */
  lemma WritingsOfAName(url: string -> Option<string>, n: string, written: string, mark: string, path: string)
    requires IsName(n) && ToLower(written) == n && mark in ["", ".", "*."] && (path == "" || path[0] == '/')
    requires Tight(mark + written + path) && IsUnmarked(mark + written + path)
    ensures SanitizeDomain(url, mark + written + path) == n
  {
    var s := mark + written + path;
    SameMarks(written, n);
    UnmarkedIsStripped(url, s);
    assert '/' !in mark + written && ':' !in mark + written;
    if path == "" {
      assert s == mark + written;
      UntilOfAbsent(s, '/');
    } else {
      assert s[..|mark + written|] == mark + written;
      UntilAt(s, '/', |mark + written|);
    }
    ColonIsAbsent(mark + written);
    MarksGo(mark, written);
    TightIsTrimmed(written);
  }

  lemma {:induction false} UntilAt(s: string, c: char, i: nat)
    requires i < |s| && s[i] == c && c !in s[..i]
    ensures Until(s, c) == s[..i]
  {
    if i > 0 {
      assert s[0] in s[..i];
      assert s[1..][..i - 1] == s[..i][1..];
      UntilAt(s[1..], c, i - 1);
      assert s[..i] == [s[0]] + s[1..][..i - 1];
    }
  }

  lemma {:induction false} CountAt(s: string, c: char, i: nat)
    requires i < |s| && s[i] == c && c !in s[..i] && c !in s[i + 1..]
    ensures Count(s, c) == 1
  {
    if i > 0 {
      assert s[0] in s[..i];
      assert s[1..][..i - 1] == s[..i][1..] && s[1..][i..] == s[i + 1..];
      CountAt(s[1..], c, i - 1);
    } else {
      CountOfAbsent(s[1..], c);
    }
  }

  lemma {:induction false} CountOfAbsent(s: string, c: char)
    requires c !in s
    ensures Count(s, c) == 0
  {
    if s != "" {
      CountOfAbsent(s[1..], c);
    }
  }

  // ---------------------------------------------------------------------------------------
  // Exactly which entries cleaning keeps
  // ---------------------------------------------------------------------------------------

  predicate HasScheme(s: string) { HasPrefix(s, "http://") || HasPrefix(s, "https://") }

  predicate IsTagText(s: string) {
    HasPrefix(s, "geosite:") || HasPrefix(s, "regexp:") || HasPrefix(s, "regex:") || HasPrefix(s, "keyword:")
  }

  predicate IsLabelled(s: string) { HasPrefix(s, "domain:") || HasPrefix(s, "full:") }

  // What a labelled text labels.
  function Labelled(s: string): (r: string)
    requires IsLabelled(s)
    ensures |r| < |s|
  {
    if HasPrefix(s, "domain:") then TrimPrefix(s, "domain:") else TrimPrefix(s, "full:")
  }

  // No URL, with or without labels in front.
  predicate IsSchemeless(s: string)
    decreases |s|
  {
    if IsTagText(s) then true
    else if IsLabelled(s) then IsSchemeless(TrimSpaceOf(Labelled(s)))
    else !HasScheme(s)
  }

  function TrimSpaceOf(s: string): (r: string)
    ensures r == TrimSpace(s) && |r| <= |s|
  {
    TrimIsNoLonger(s);
    TrimSpace(s)
  }

  // A colon with a text in front of it that ends the host: one colon, and no bracket.
  predicate HasPort(s: string) { ':' in s && ']' !in s && '[' !in s && Count(s, ':') == 1 && s[0] != ':' }

  predicate IsCleanHost(s: string) {
    '/' !in s && !HasPort(s) && !HasPrefix(s, "*.") && !HasPrefix(s, ".") && ToLower(s) == s
  }

  // A trimmed text that is a tag, or a host without path, port, leading dot or capitals, with any
  // number of labels.
  predicate IsClean(s: string)
    decreases |s|
  {
    && Tight(s)
    && if IsTagText(s) then true
       else if IsLabelled(s) then IsClean(Labelled(s))
       else IsCleanHost(s)
  }

  lemma {:induction false} UntilIsAFront(s: string, c: char)
    ensures Until(s, c) <= s && (Until(s, c) == s <==> c !in s)
  {
    if s != "" && s[0] != c {
      UntilIsAFront(s[1..], c);
      assert s == [s[0]] + s[1..];
    }
  }

  lemma WithoutPortIsAFront(s: string)
    ensures WithoutPort(s) <= s && (WithoutPort(s) == s <==> !HasPort(s))
  {
    UntilIsAFront(s, ':');
    assert s != "" ==> (Until(s, ':') == "" <==> s[0] == ':');
  }

  lemma PrefixIsShorter(s: string, p: string)
    requires p != ""
    ensures |TrimPrefix(s, p)| <= |s| && (TrimPrefix(s, p) == s <==> !HasPrefix(s, p))
  {}

  // Cleaning a host only ever shortens it, so it keeps the text iff no step changes it.
  lemma HostIsKeptIffClean(s: string)
    requires Tight(s)
    ensures ToLower(TrimSpace(TrimPrefix(TrimPrefix(WithoutPort(Until(s, '/')), "*."), "."))) == s <==> IsCleanHost(s)
  {
    var a := Until(s, '/');
    var b := WithoutPort(a);
    var c := TrimPrefix(b, "*.");
    var d := TrimPrefix(c, ".");
    UntilIsAFront(s, '/');
    WithoutPortIsAFront(a);
    PrefixIsShorter(b, "*.");
    PrefixIsShorter(c, ".");
    TrimIsNoLonger(d);
    if IsCleanHost(s) {
      TightIsTrimmed(s);
    } else if ToLower(TrimSpace(d)) == s {
      StepsKeepLength(s, a, b, c, d);
      TightIsTrimmed(s);
    }
  }

  lemma StepsKeepLength(s: string, a: string, b: string, c: string, d: string)
    requires a <= s && b <= a && |c| <= |b| && |d| <= |c| && |s| <= |d|
    ensures a == s && b == s && |c| == |s| && |d| == |s|
  {}

  lemma LabelsExclude(s: string)
    ensures IsTagText(s) ==> !IsLabelled(s) && !HasScheme(s)
    ensures IsLabelled(s) ==> !HasScheme(s)
    ensures HasPrefix(s, "domain:") ==> !HasPrefix(s, "full:")
  {
    if s != "" {
      var c := s[0];
      assert HasPrefix(s, "geosite:") ==> c == 'g';
      assert HasPrefix(s, "regexp:") || HasPrefix(s, "regex:") ==> c == 'r';
      assert HasPrefix(s, "keyword:") ==> c == 'k';
      assert HasPrefix(s, "domain:") ==> c == 'd';
      assert HasPrefix(s, "full:") ==> c == 'f';
      assert HasScheme(s) ==> c == 'h';
    }
  }

  lemma PutBack(s: string, p: string, r: string)
    requires HasPrefix(s, p)
    ensures p + r == s <==> r == TrimPrefix(s, p)
  {
    if p + r == s { assert (p + r)[|p|..] == r; }
  }

  /** An entry without a URL is cleaned to itself iff it is clean. */
  lemma {:induction false} KeptIffClean(url: string -> Option<string>, e: string)
    requires IsSchemeless(TrimSpace(e))
    ensures SanitizeDomain(url, e) == e <==> IsClean(e)
    decreases |e|
  {
    var s := TrimSpace(e);
    TrimIsTight(e);
    LabelsExclude(s);
    if !Tight(e) {
      UntrimmedIsNotKept(url, e);
    } else {
      TightIsTrimmed(e);
      if IsLabelled(e) && !IsTagText(e) {
        var r := Labelled(e);
        KeptIffClean(url, r);
        PutBack(e, if HasPrefix(e, "domain:") then "domain:" else "full:", SanitizeDomain(url, r));
      } else if !IsTagText(e) && e != "" {
        HostIsKeptIffClean(e);
      }
    }
  }

  // Cleaned texts have no white space around them.
  lemma {:induction false} CleanedIsTrimmed(url: string -> Option<string>, e: string)
    ensures Tight(SanitizeDomain(url, e))
    decreases |e|
  {
    var s := TrimSpace(e);
    TrimIsTight(e);
    TrimIsNoLonger(e);
    if HasPrefix(s, "domain:") && !IsTagText(s) {
      CleanedIsTrimmed(url, TrimPrefix(s, "domain:"));
    } else if HasPrefix(s, "full:") && !IsTagText(s) {
      CleanedIsTrimmed(url, TrimPrefix(s, "full:"));
    } else if !IsTagText(s) && s != "" {
      var host := TrimPrefix(TrimPrefix(WithoutPort(HostOf(url, s)), "*."), ".");
      TrimIsTight(host);
      LoweredIsTight(TrimSpace(host));
    }
  }

  lemma LoweredIsTight(s: string)
    requires Tight(s)
    ensures Tight(ToLower(s))
  {}

  lemma UntrimmedIsNotKept(url: string -> Option<string>, e: string)
    requires !Tight(e)
    ensures SanitizeDomain(url, e) != e
  {
    CleanedIsTrimmed(url, e);
  }

  // ---------------------------------------------------------------------------------------
  // The label `suffix:`
  // ---------------------------------------------------------------------------------------

  // A character after which the code does not look for a port.
  predicate IsGuard(c: char) { c == ':' || c == '[' || c == ']' }

  predicate Guarded(s: string) { exists c | c in s :: IsGuard(c) }

  // Some such character before the path.
  predicate KeepsLabel(d: string) { Guarded(Until(d, '/')) }

  lemma {:induction false} TrimAfterColon(mark: string, d: string)
    requires mark != "" && !IsSpace(mark[0]) && !IsSpace(mark[|mark| - 1])
    ensures TrimSpace(mark + d) == mark + TrimRight(d)
  {
    var s := mark + d;
    if d == "" {
      assert s == mark;
      TightIsTrimmed(mark);
    } else if IsSpace(d[|d| - 1]) {
      TrimAfterColon(mark, d[..|d| - 1]);
      assert s == (mark + d[..|d| - 1]) + [d[|d| - 1]];
      TrimWithSpace(mark + d[..|d| - 1], d[|d| - 1]);
    } else {
      assert s[0] == mark[0] && s[|s| - 1] == d[|d| - 1];
      TightIsTrimmed(s);
    }
  }

  lemma {:induction false} UntilAfter(mark: string, d: string, c: char)
    requires c !in mark
    ensures Until(mark + d, c) == mark + Until(d, c)
  {
    if mark == "" {
      assert mark + d == d;
    } else {
      assert (mark + d)[1..] == mark[1..] + d;
      UntilAfter(mark[1..], d, c);
    }
  }

  lemma {:induction false} UntilOfLonger(s: string, x: char)
    ensures Until(s + [x], '/') == if '/' in s || x == '/' then Until(s, '/') else Until(s, '/') + [x]
  {
    if s == "" {
      assert s + [x] == [x] && [x][1..] == "";
    } else if s[0] != '/' {
      assert (s + [x])[1..] == s[1..] + [x];
      UntilOfLonger(s[1..], x);
    }
  }

  lemma {:induction false} TrimmedKeepsLabel(d: string)
    ensures KeepsLabel(TrimRight(d)) <==> KeepsLabel(d)
  {
    if d != "" && IsSpace(d[|d| - 1]) {
      var init, x := d[..|d| - 1], d[|d| - 1];
      TrimmedKeepsLabel(init);
      UntilOfLonger(init, x);
      assert d == init + [x] && !IsGuard(x);
      SpaceIsNoGuard(Until(init, '/'), x);
    }
  }

  lemma SpaceIsNoGuard(s: string, x: char)
    requires !IsGuard(x)
    ensures Guarded(s + [x]) <==> Guarded(s)
  {
    assert forall c :: c in s + [x] <==> c in s || c == x;
  }

  lemma {:induction false} CountOfConcat(a: string, b: string, c: char)
    ensures Count(a + b, c) == Count(a, c) + Count(b, c)
  {
    if a == "" {
      assert a + b == b;
    } else {
      assert (a + b)[1..] == a[1..] + b;
      CountOfConcat(a[1..], b, c);
    }
  }

  lemma {:induction false} CountIsZeroIffAbsent(s: string, c: char)
    ensures Count(s, c) == 0 <==> c !in s
  {
    if s != "" {
      CountIsZeroIffAbsent(s[1..], c);
      assert s == [s[0]] + s[1..];
    }
  }

  // A host with a label that is taken for a port, or not.
  lemma PortOfLabel(mark: string, u: string)
    requires mark != "" && ':' !in mark && '[' !in mark && ']' !in mark
    ensures HasPort(mark + ":" + u) <==> !Guarded(u)
    ensures WithoutPort(mark + ":" + u) == if Guarded(u) then mark + ":" + u else mark
  {
    var s := mark + ":" + u;
    assert s == (mark + ":") + u && forall c :: c in s <==> c in mark || c == ':' || c in u;
    CountIsZeroIffAbsent(mark, ':');
    CountIsZeroIffAbsent(u, ':');
    CountOfConcat(mark, ":", ':');
    CountOfConcat(mark + ":", u, ':');
    assert Count(":", ':') == 1;
    assert s == mark + (":" + u);
    UntilAfter(mark, ":" + u, ':');
    assert Guarded(u) <==> ':' in u || '[' in u || ']' in u;
  }

  lemma SuffixIsUnmarked(s: string)
    requires HasPrefix(s, "suffix:")
    ensures IsUnmarked(s) && !HasPrefix(s, "*.") && !HasPrefix(s, ".")
  {
    assert s[0] == 's';
  }

  lemma LoweredKeepsSuffix(s: string)
    requires HasPrefix(s, "suffix:")
    ensures HasPrefix(ToLower(s), "suffix:")
  {
    assert ToLower(s)[..7] == "suffix:";
  }

  /** An entry keeps the label `suffix:` iff what follows it, up to a slash, holds another colon or a
      bracket; otherwise the label is taken for a host and the rest for its port. */
  lemma SuffixLabelIsKeptIff(url: string -> Option<string>, d: string)
    ensures HasPrefix(SanitizeDomain(url, "suffix:" + d), "suffix:") <==> KeepsLabel(d)
  {
    var s := TrimSpace("suffix:" + d);
    TrimAfterColon("suffix:", d);
    TrimmedKeepsLabel(d);
    SuffixIsUnmarked(s);
    SuffixHost(s, TrimRight(d));
    UnmarkedIsCleaned(url, "suffix:" + d, s);
    StrippedSuffix(Until(TrimRight(d), '/'), WithoutPort(Until(s, '/')));
  }

  lemma SuffixHost(s: string, r: string)
    requires s == "suffix:" + r
    ensures var u := Until(r, '/'); WithoutPort(Until(s, '/')) == if Guarded(u) then "suffix:" + u else "suffix"
  {
    UntilAfter("suffix:", r, '/');
    PortOfLabel("suffix", Until(r, '/'));
    assert "suffix" + ":" + Until(r, '/') == "suffix:" + Until(r, '/');
  }

  lemma UnmarkedIsCleaned(url: string -> Option<string>, raw: string, s: string)
    requires s == TrimSpace(raw) && s != "" && IsUnmarked(s)
    ensures SanitizeDomain(url, raw) ==
            ToLower(TrimSpace(TrimPrefix(TrimPrefix(WithoutPort(Until(s, '/')), "*."), ".")))
  {}

  lemma StrippedSuffix(u: string, host: string)
    requires host == if Guarded(u) then "suffix:" + u else "suffix"
    ensures HasPrefix(ToLower(TrimSpace(TrimPrefix(TrimPrefix(host, "*."), "."))), "suffix:") <==> Guarded(u)
  {
    if Guarded(u) {
      SuffixIsUnmarked(host);
      TrimAfterColon("suffix:", u);
      LoweredKeepsSuffix("suffix:" + TrimRight(u));
    } else {
      assert host[0] == 's';
      TightIsTrimmed(host);
    }
  }
}
