/**
 * The URL work of the endpoint derivation: the slash-collapsing normalisation of the backend base
 * URL (`${backendUrl}/`.replace(/([^:]\/)\/+/g, '$1')), splitting a base URL into scheme,
 * authority and the rest, and resolving an absolute-path reference against it (section 5.2.2 of
 * RFC 3986; the WHATWG URL Standard's parser agrees on the inputs covered here).
 *
 * Covered inputs: an `http` or `https` base whose host is lower-case letters, digits, `-` and `.`
 * (not an IPv4 address, no IDNA `xn--` label), with an optional port other than the scheme's
 * default, followed by nothing or by a path starting with `/`. References are `/`-separated
 * segments of unreserved characters with no `.` or `..` segment. On these inputs the WHATWG
 * parser neither lower-cases, percent-encodes, drops a default port nor removes dot segments.
 */
module Urls {
  import opened Wrappers
  import opened Text

  // ---------------------------------------------------------------------------------------------
  // Slash collapsing

  /** The pattern `([^:]\/)\/+` matches at `i`: a character other than `:`, then two or more slashes. */
  predicate MatchAt(s: string, i: int)
  {
    0 <= i && i + 2 < |s| && s[i] != ':' && s[i + 1] == '/' && s[i + 2] == '/'
  }

  /** What the greedy `\/+` leaves: the text after a run of leading slashes. */
  function DropSlashes(s: string): (r: string)
    ensures |r| <= |s| && r == s[|s| - |r|..]
    ensures r == [] || r[0] != '/'
  {
    if s != [] && s[0] == '/' then DropSlashes(s[1..]) else s
  }

  /**
   * The global replace: scanning left to right, where the pattern matches, its text (the
   * character, the slashes after it) is replaced by the character and one slash, and scanning
   * resumes after the match; elsewhere one character is copied.
   */
  function Collapse(s: string): string
    decreases |s|
  {
    if |s| < 3 then s
    else if MatchAt(s, 0) then [s[0], '/'] + Collapse(DropSlashes(s[2..]))
    else [s[0]] + Collapse(s[1..])
  }

  /** No match left: every double slash starts the string or directly follows a `:`. */
  ghost predicate Collapsed(s: string)
  {
    forall i :: !MatchAt(s, i)
  }

  /** The base normalisation of the backend URL: append `/`, then collapse. */
  function Normalise(backendUrl: string): string
  {
    Collapse(backendUrl + "/")
  }

  /** The first two characters are never touched: a match keeps its first character and one slash. */
  lemma {:induction false} CollapseKeepsFirstTwo(s: string)
    ensures |s| <= 2 ==> Collapse(s) == s
    ensures |s| >= 1 ==> |Collapse(s)| >= 1 && Collapse(s)[0] == s[0]
    ensures |s| >= 2 ==> |Collapse(s)| >= 2 && Collapse(s)[1] == s[1]
    decreases |s|
  {
    if |s| >= 3 && !MatchAt(s, 0) {
      CollapseKeepsFirstTwo(s[1..]);
    }
  }

  lemma MatchAtShift(c: seq<char>, s: string, i: int)
    requires |c| > 0 && i >= 0
    ensures MatchAt(c + s, i + |c|) == MatchAt(s, i)
  {
    if i + 2 < |s| {
      assert (c + s)[i + |c|] == s[i] && (c + s)[i + |c| + 1] == s[i + 1] && (c + s)[i + |c| + 2] == s[i + 2];
    }
  }

  /** The result of the replace contains no further match. */
  lemma {:induction false} CollapseIsCollapsed(s: string)
    ensures Collapsed(Collapse(s))
    decreases |s|
  {
    if |s| < 3 {
    } else if MatchAt(s, 0) {
      var t := DropSlashes(s[2..]);
      var r := Collapse(s);
      CollapseIsCollapsed(t);
      CollapseKeepsFirstTwo(t);
      assert r == [s[0], '/'] + Collapse(t);
      forall i ensures !MatchAt(r, i) {
        if i >= 2 {
          MatchAtShift([s[0], '/'], Collapse(t), i - 2);
        }
      }
    } else {
      var r := Collapse(s);
      CollapseIsCollapsed(s[1..]);
      CollapseKeepsFirstTwo(s[1..]);
      assert r == [s[0]] + Collapse(s[1..]);
      forall i ensures !MatchAt(r, i) {
        if i >= 1 {
          MatchAtShift([s[0]], Collapse(s[1..]), i - 1);
        }
      }
    }
  }

  /** A string with no match is left as it is. */
  lemma {:induction false} CollapsedUnchanged(s: string)
    requires Collapsed(s)
    ensures Collapse(s) == s
    decreases |s|
  {
    if |s| >= 3 {
      assert !MatchAt(s, 0);
      forall i | 0 <= i ensures !MatchAt(s[1..], i) {
        MatchAtShift([s[0]], s[1..], i);
        assert [s[0]] + s[1..] == s;
        assert !MatchAt(s, i + 1);
      }
      CollapsedUnchanged(s[1..]);
    }
  }

  /** Normalising twice is normalising once. */
  lemma CollapseIdempotent(s: string)
    ensures Collapse(Collapse(s)) == Collapse(s)
  {
    CollapseIsCollapsed(s);
    CollapsedUnchanged(Collapse(s));
  }

  /** The text with every slash removed. */
  function Unslashed(s: string): string
  {
    if s == [] then [] else (if s[0] == '/' then [] else [s[0]]) + Unslashed(s[1..])
  }

  lemma {:induction false} UnslashedAppend(a: string, b: string)
    ensures Unslashed(a + b) == Unslashed(a) + Unslashed(b)
  {
    if a != [] {
      var head := if a[0] == '/' then [] else [a[0]];
      calc {
        Unslashed(a + b);
        { assert (a + b)[0] == a[0] && (a + b)[1..] == a[1..] + b; }
        head + Unslashed(a[1..] + b);
        { UnslashedAppend(a[1..], b); }
        head + (Unslashed(a[1..]) + Unslashed(b));
        Unslashed(a) + Unslashed(b);
      }
    } else {
      assert a + b == b;
    }
  }

  lemma {:induction false} UnslashedDrop(s: string)
    ensures Unslashed(DropSlashes(s)) == Unslashed(s)
  {
    if s != [] && s[0] == '/' {
      UnslashedDrop(s[1..]);
    }
  }

  /** The replace never lengthens the text. */
  lemma {:induction false} CollapseShrinks(s: string)
    ensures |Collapse(s)| <= |s|
    decreases |s|
  {
    if |s| >= 3 {
      if MatchAt(s, 0) {
        CollapseShrinks(DropSlashes(s[2..]));
      } else {
        CollapseShrinks(s[1..]);
      }
    }
  }

  /** Only slashes are removed: every other character survives, in order, and nothing is added. */
  lemma {:induction false} CollapseRemovesOnlySlashes(s: string)
    ensures Unslashed(Collapse(s)) == Unslashed(s)
    decreases |s|
  {
    if |s| >= 3 {
      if MatchAt(s, 0) {
        var t := DropSlashes(s[2..]);
        calc {
          Unslashed(Collapse(s));
          Unslashed([s[0], '/'] + Collapse(t));
          { UnslashedAppend([s[0], '/'], Collapse(t)); }
          Unslashed([s[0], '/']) + Unslashed(Collapse(t));
          { CollapseRemovesOnlySlashes(t); UnslashedDrop(s[2..]); }
          Unslashed([s[0], '/']) + Unslashed(s[2..]);
          { UnslashedAppend([s[0], '/'], s[2..]); assert [s[0], '/'] + s[2..] == s; }
          Unslashed(s);
        }
      } else {
        calc {
          Unslashed(Collapse(s));
          Unslashed([s[0]] + Collapse(s[1..]));
          { UnslashedAppend([s[0]], Collapse(s[1..])); }
          Unslashed([s[0]]) + Unslashed(Collapse(s[1..]));
          { CollapseRemovesOnlySlashes(s[1..]); }
          Unslashed([s[0]]) + Unslashed(s[1..]);
          { UnslashedAppend([s[0]], s[1..]); assert [s[0]] + s[1..] == s; }
          Unslashed(s);
        }
      }
    }
  }

  /** A prefix where the pattern cannot start passes through unchanged. */
  lemma {:induction false} CollapseAfterPrefix(p: string, q: string)
    requires forall i :: 0 <= i < |p| ==> !MatchAt(p + q, i)
    ensures Collapse(p + q) == p + Collapse(q)
    decreases |p|
  {
    if p != [] {
      var s := p + q;
      if |s| >= 3 {
        assert !MatchAt(s, 0);
        assert s == [p[0]] + (p[1..] + q);
        forall i | 0 <= i < |p[1..]| ensures !MatchAt(p[1..] + q, i) {
          MatchAtShift([p[0]], p[1..] + q, i);
          assert !MatchAt(s, i + 1);
        }
        CollapseAfterPrefix(p[1..], q);
        calc {
          Collapse(s);
          [s[0]] + Collapse(s[1..]);
          { assert s[1..] == p[1..] + q; }
          [p[0]] + (p[1..] + Collapse(q));
          { assert [p[0]] + p[1..] == p; }
          p + Collapse(q);
        }
      } else {
        CollapseKeepsFirstTwo(q);
      }
    } else {
      assert p + q == q;
    }
  }

  // ---------------------------------------------------------------------------------------------
  // Base URLs

  /** Scheme, authority and what follows the authority (the path, with any query and fragment). */
  datatype UrlRecord = UrlRecord(scheme: string, authority: string, path: string)

  /** The URL serializer: `scheme://authority` followed by the path. */
  function Serialize(u: UrlRecord): string
  {
    u.scheme + "://" + u.authority + u.path
  }

  predicate IsSpecialScheme(scheme: string)
  {
    scheme == "http" || scheme == "https"
  }

  function DefaultPort(scheme: string): nat
  {
    if scheme == "https" then 443 else 80
  }

  /** The first index of `c` in `s`, or `|s|` when there is none. */
  function IndexOf(s: string, c: char): (i: nat)
    ensures i <= |s|
    ensures forall j :: 0 <= j < i ==> s[j] != c
    ensures i < |s| ==> s[i] == c
  {
    if s == [] then 0 else if s[0] == c then 0 else 1 + IndexOf(s[1..], c)
  }

  predicate IsHostChar(c: char)
  {
    'a' <= c <= 'z' || IsDigit(c) || c == '-' || c == '.'
  }

  function IndexAfterLastDot(h: string): (i: nat)
    ensures i <= |h|
    ensures forall j :: i <= j < |h| ==> h[j] != '.'
  {
    if h == [] then 0
    else if h[|h| - 1] == '.' then |h|
    else IndexAfterLastDot(h[..|h| - 1])
  }

  /** The last dot-separated label of a host. */
  function LastLabel(h: string): string
  {
    h[IndexAfterLastDot(h)..]
  }

  predicate HasLetter(s: string)
  {
    exists i :: 0 <= i < |s| && 'a' <= s[i] <= 'z'
  }

  /**
   * A lower-case domain that the WHATWG host parser returns unchanged: the last label holds a
   * letter and is not a `0x` number, so the host is not read as an IPv4 address, and no label is
   * an IDNA `xn--` label.
   */
  predicate IsPlainDomain(h: string)
  {
    && |h| > 0
    && (forall i :: 0 <= i < |h| ==> IsHostChar(h[i]))
    && h[|h| - 1] != '.'
    && HasLetter(LastLabel(h))
    && !(|LastLabel(h)| >= 2 && LastLabel(h)[..2] == "0x")
    && (forall i :: 0 <= i <= |h| - 4 ==> !(h[i] == 'x' && h[i + 1] == 'n' && h[i + 2] == '-' && h[i + 3] == '-'))
  }

  /** A port as the serializer writes it back: a canonical number up to 65535. */
  predicate IsPort(p: string)
  {
    IsCanonicalNumeral(p) && |p| <= 5 && DigitsValue(p) <= 65535
  }

  /** `host` or `host:port`, the port not being the scheme's default (which the serializer would drop). */
  predicate IsAuthority(scheme: string, a: string)
  {
    var i := IndexOf(a, ':');
    && IsPlainDomain(a[..i])
    && (i < |a| ==> IsPort(a[i + 1..]) && DigitsValue(a[i + 1..]) != DefaultPort(scheme))
  }

  /** A character that ends the authority. */
  predicate IsAuthorityEnd(c: char)
  {
    c == '/' || c == '?' || c == '#' || c == '\\'
  }

  function AuthorityLength(s: string): (i: nat)
    ensures i <= |s|
    ensures forall j :: 0 <= j < i ==> !IsAuthorityEnd(s[j])
    ensures i < |s| ==> IsAuthorityEnd(s[i])
  {
    if s == [] then 0 else if IsAuthorityEnd(s[0]) then 0 else 1 + AuthorityLength(s[1..])
  }

  /** An authority is never empty and never holds a character that would end it. */
  lemma AuthorityHasNoEnd(scheme: string, a: string)
    requires IsAuthority(scheme, a)
    ensures |a| > 0 && forall j :: 0 <= j < |a| ==> !IsAuthorityEnd(a[j])
  {
    var i := IndexOf(a, ':');
    var host := a[..i];
    forall j | 0 <= j < |a| ensures !IsAuthorityEnd(a[j]) {
      if j < i {
        assert a[j] == host[j];
        assert IsHostChar(host[j]);
      } else if j > i {
        var port := a[i + 1..];
        assert a[j] == port[j - i - 1];
        assert IsDigit(port[j - i - 1]);
      }
    }
  }

  /**
   * The split of `scheme://authority rest` into its three parts, with no check on any of them:
   * the scheme ends at the first `:`, the authority at the first `/`, `?`, `#` or `\\`.
   */
  function Split(u: string): Option<UrlRecord>
  {
    var i := IndexOf(u, ':');
    if i + 3 <= |u| && u[i + 1] == '/' && u[i + 2] == '/' then
      var hier := u[i + 3..];
      var j := AuthorityLength(hier);
      Some(UrlRecord(u[..i], hier[..j], hier[j..]))
    else None
  }

  /**
   * A base URL of the covered form, split into scheme, authority and the rest; None for a string
   * outside that form (the WHATWG parser accepts more, which this model does not cover).
   */
  function ParseBase(u: string): Option<UrlRecord>
  {
    if Split(u).Some? && IsSpecialScheme(Split(u).value.scheme) && IsAuthority(Split(u).value.scheme, Split(u).value.authority)
    then Split(u)
    else None
  }

  /** A backend URL the model covers: `scheme://authority`, optionally followed by a path. */
  predicate IsBaseUrl(u: string)
  {
    ParseBase(u).Some? && (ParseBase(u).value.path == [] || ParseBase(u).value.path[0] == '/')
  }

  lemma {:induction false} IndexOfAfter(a: string, c: char, b: string)
    requires forall j :: 0 <= j < |a| ==> a[j] != c
    ensures IndexOf(a + [c] + b, c) == |a|
  {
    if a != [] {
      assert (a + [c] + b)[1..] == a[1..] + [c] + b;
      IndexOfAfter(a[1..], c, b);
    }
  }

  lemma {:induction false} AuthorityLengthAfter(a: string, b: string)
    requires forall j :: 0 <= j < |a| ==> !IsAuthorityEnd(a[j])
    requires b == [] || IsAuthorityEnd(b[0])
    ensures AuthorityLength(a + b) == |a|
  {
    if a != [] {
      assert (a + b)[1..] == a[1..] + b;
      AuthorityLengthAfter(a[1..], b);
    } else {
      assert a + b == b;
    }
  }

  /** Splitting a serialized record whose parts hold no delimiter gives the record back. */
  lemma SplitSerialize(u: UrlRecord)
    requires forall j :: 0 <= j < |u.scheme| ==> u.scheme[j] != ':'
    requires forall j :: 0 <= j < |u.authority| ==> !IsAuthorityEnd(u.authority[j])
    requires u.path == [] || IsAuthorityEnd(u.path[0])
    ensures Split(Serialize(u)) == Some(u)
  {
    var s := Serialize(u);
    var hier := u.authority + u.path;
    assert s == u.scheme + [':'] + ("//" + hier);
    IndexOfAfter(u.scheme, ':', "//" + hier);
    var i := |u.scheme|;
    assert s[..i] == u.scheme;
    assert s[i + 1] == '/' && s[i + 2] == '/';
    assert s[i + 3..] == hier;
    AuthorityLengthAfter(u.authority, u.path);
    assert hier[..|u.authority|] == u.authority && hier[|u.authority|..] == u.path;
  }

  /** A text with `://` at `i`, cut after it at any point `j`, is the join of its three pieces. */
  lemma JoinAt(s: string, i: nat, j: nat)
    requires i + 3 <= |s| && s[i] == ':' && s[i + 1] == '/' && s[i + 2] == '/'
    requires j <= |s| - (i + 3)
    ensures s[..i] + "://" + s[i + 3..][..j] + s[i + 3..][j..] == s
  {
    var hier := s[i + 3..];
    assert s[..i] + "://" == s[..i + 3];
    assert hier[..j] + hier[j..] == hier;
    assert s[..i + 3] + hier == s;
  }

  /** Serializing a split text gives the text back. */
  lemma SerializeSplit(s: string)
    requires Split(s).Some?
    ensures Serialize(Split(s).value) == s
  {
    var i := IndexOf(s, ':');
    var hier := s[i + 3..];
    var j := AuthorityLength(hier);
    assert Split(s).value == UrlRecord(s[..i], hier[..j], hier[j..]);
    JoinAt(s, i, j);
  }

  /** Parsing a serialized record of the covered form gives the record back. */
  lemma ParseSerialize(u: UrlRecord)
    requires IsSpecialScheme(u.scheme) && IsAuthority(u.scheme, u.authority)
    requires u.path == [] || IsAuthorityEnd(u.path[0])
    ensures ParseBase(Serialize(u)) == Some(u)
  {
    AuthorityHasNoEnd(u.scheme, u.authority);
    SplitSerialize(u);
  }

  /** Serializing a parsed base gives the text back. */
  lemma SerializeParse(s: string)
    requires ParseBase(s).Some?
    ensures Serialize(ParseBase(s).value) == s
  {
    SerializeSplit(s);
  }

  /** A scheme as it is written before `://`: not empty, with no `:` or `/` in it. */
  predicate IsSchemeText(scheme: string)
  {
    |scheme| > 0 && forall j :: 0 <= j < |scheme| ==> scheme[j] != ':' && scheme[j] != '/'
  }

  /** In a text starting `scheme://authority`, the pattern cannot match before the authority's last character. */
  lemma NoMatchInOrigin(w: string, scheme: string, a: string)
    requires IsSchemeText(scheme) && |a| > 0
    requires forall j :: 0 <= j < |a| ==> !IsAuthorityEnd(a[j])
    requires |w| >= |scheme| + 3 + |a| && w[..|scheme| + 3 + |a|] == scheme + "://" + a
    ensures forall i :: 0 <= i < |scheme| + 2 + |a| ==> !MatchAt(w, i)
  {
    var k := |scheme|;
    var origin := scheme + "://" + a;
    forall i | 0 <= i < k + 2 + |a| ensures !MatchAt(w, i) {
      assert w[i] == origin[i] && w[i + 1] == origin[i + 1];
      if i + 1 < k {
        assert origin[i + 1] == scheme[i + 1];
      } else if i + 1 == k {
        assert origin[i + 1] == ':';
      } else if i == k {
        assert origin[i] == ':';
      } else if i == k + 1 {
        assert w[i + 2] == origin[i + 2] == a[0];
      } else {
        assert origin[i + 1] == a[i + 1 - k - 3];
      }
    }
  }

  /** Collapsing a character followed by a path and a final slash keeps the character and one slash. */
  lemma CollapseKeepsSlashAfter(c: char, path: string)
    requires path == [] || path[0] == '/'
    ensures var r := Collapse([c] + (path + "/")); |r| >= 2 && r[0] == c && r[1] == '/'
  {
    var q := [c] + (path + "/");
    assert q[0] == c && q[1] == '/';
    CollapseKeepsFirstTwo(q);
  }

  /** `scheme://authority path/` cut just before the authority's last character. */
  lemma OriginSplit(scheme: string, a: string, path: string)
    requires |a| > 0
    ensures var origin := scheme + "://" + a;
      && origin == (scheme + "://" + a[..|a| - 1]) + [a[|a| - 1]]
      && scheme + "://" + a + path + "/" == (scheme + "://" + a[..|a| - 1]) + ([a[|a| - 1]] + (path + "/"))
      && (scheme + "://" + a + path + "/")[..|origin|] == origin
  {
    var last := a[|a| - 1];
    assert a == a[..|a| - 1] + [last];
  }

  /** Putting a kept prefix before a text whose first character is `c` and whose second is `/`. */
  lemma PrefixBeforeKept(p: string, c: char, cq: string)
    requires |cq| >= 2 && cq[0] == c && cq[1] == '/'
    ensures |p + cq| > |p| + 1 && (p + cq)[..|p| + 1] == p + [c] && (p + cq)[|p| + 1] == '/'
  {
    assert (p + cq)[..|p| + 1] == p + cq[..1];
    assert cq[..1] == [c];
  }

  /** Collapsing `scheme://authority path/` keeps `scheme://authority` and the slash after it. */
  lemma CollapseKeepsOrigin(scheme: string, a: string, path: string)
    requires IsSchemeText(scheme) && |a| > 0
    requires forall j :: 0 <= j < |a| ==> !IsAuthorityEnd(a[j])
    requires path == [] || path[0] == '/'
    ensures var n := Collapse(scheme + "://" + a + path + "/");
      |n| > |scheme + "://" + a| && n[..|scheme + "://" + a|] == scheme + "://" + a && n[|scheme + "://" + a|] == '/'
  {
    var last := a[|a| - 1];
    var p := scheme + "://" + a[..|a| - 1];
    var q := [last] + (path + "/");
    var w := scheme + "://" + a + path + "/";
    OriginSplit(scheme, a, path);
    NoMatchInOrigin(w, scheme, a);
    CollapseAfterPrefix(p, q);
    CollapseKeepsSlashAfter(last, path);
    PrefixBeforeKept(p, last, Collapse(q));
  }

  lemma SpecialSchemeIsSchemeText(scheme: string)
    requires IsSpecialScheme(scheme)
    ensures IsSchemeText(scheme)
  {
  }

  /** Normalising a serialized base record keeps its scheme and authority, and leaves a path starting with `/`. */
  lemma NormaliseRecord(rec: UrlRecord)
    requires IsSpecialScheme(rec.scheme) && IsAuthority(rec.scheme, rec.authority)
    requires rec.path == [] || rec.path[0] == '/'
    ensures var n := Collapse(Serialize(rec) + "/"); var k := |rec.scheme + "://" + rec.authority|;
      && |n| > k && n[k] == '/'
      && ParseBase(n) == Some(UrlRecord(rec.scheme, rec.authority, n[k..]))
  {
    AuthorityHasNoEnd(rec.scheme, rec.authority);
    SpecialSchemeIsSchemeText(rec.scheme);
    CollapseKeepsOrigin(rec.scheme, rec.authority, rec.path);
    var n := Collapse(Serialize(rec) + "/");
    var k := |rec.scheme + "://" + rec.authority|;
    assert Serialize(rec) + "/" == rec.scheme + "://" + rec.authority + rec.path + "/";
    var target := UrlRecord(rec.scheme, rec.authority, n[k..]);
    assert Serialize(target) == n by {
      assert n == n[..k] + n[k..];
    }
    ParseSerialize(target);
  }

  /**
   * Normalisation keeps the scheme and the authority of a covered base URL and leaves a path
   * that starts with `/`: `://` survives because the authority cannot start with a slash.
   */
  lemma NormaliseKeepsOrigin(u: string)
    requires IsBaseUrl(u)
    ensures ParseBase(Normalise(u)).Some?
    ensures ParseBase(Normalise(u)).value.scheme == ParseBase(u).value.scheme
    ensures ParseBase(Normalise(u)).value.authority == ParseBase(u).value.authority
    ensures |ParseBase(Normalise(u)).value.path| > 0 && ParseBase(Normalise(u)).value.path[0] == '/'
  {
    var rec := ParseBase(u).value;
    SerializeParse(u);
    NormaliseRecord(rec);
  }

  // ---------------------------------------------------------------------------------------------
  // Resolution of an absolute-path reference

  /** An unreserved character of section 2.3 of RFC 3986: never percent-encoded in a path. */
  predicate IsUnreserved(c: char)
  {
    'A' <= c <= 'Z' || 'a' <= c <= 'z' || IsDigit(c) || c == '-' || c == '.' || c == '_' || c == '~'
  }

  /** A path segment that resolution keeps verbatim: unreserved characters, not `.` or `..`. */
  predicate IsPlainSegment(seg: string)
  {
    (forall i :: 0 <= i < |seg| ==> IsUnreserved(seg[i])) && seg != "." && seg != ".."
  }

  /** The absolute path `/s1/s2/.../sn`. */
  function PathOf(segments: seq<string>): string
  {
    if segments == [] then "" else "/" + segments[0] + PathOf(segments[1..])
  }

  /** An absolute-path reference (section 4.2 of RFC 3986): not `//`, so not a network-path reference. */
  predicate IsAbsolutePathReference(segments: seq<string>)
  {
    |segments| > 0 && segments[0] != "" && forall i :: 0 <= i < |segments| ==> IsPlainSegment(segments[i])
  }

  /**
   * Section 5.2.2 of RFC 3986 for a reference whose path starts with `/`: the target keeps the
   * base's scheme and authority and takes the reference's path, from which `remove_dot_segments`
   * removes nothing because no segment is `.` or `..`; the base's own path is not used.
   */
  function Resolve(base: UrlRecord, segments: seq<string>): UrlRecord
    requires IsAbsolutePathReference(segments)
  {
    UrlRecord(base.scheme, base.authority, PathOf(segments))
  }

  /** Adding a segment adds `/segment` to the path. */
  lemma {:induction false} PathOfAppend(segments: seq<string>, last: string)
    ensures PathOf(segments + [last]) == PathOf(segments) + "/" + last
  {
    if segments != [] {
      assert (segments + [last])[1..] == segments[1..] + [last];
      PathOfAppend(segments[1..], last);
    }
  }
}
