/** The x.ai host pin (internal/protocol/pin.go): the label test that decides which hosts may
    receive credentials, and the suffix rule it is meant to implement. */
module HostPin {
  import opened Basics

  /** strings.Split(h, "."). */
  function Split(h: string): (labels: seq<string>)
    ensures labels != []
  {
    if h == "" then [""]
    else
      var rest := Split(h[1..]);
      if h[0] == '.' then [""] + rest else [[h[0]] + rest[0]] + rest[1..]
  }

  function Normalize(host: string): string {
    var h := ToLower(Trim(host));
    if h != "" && h[|h| - 1] == '.' then h[..|h| - 1] else h
  }

  predicate HasDoubleDot(h: string) {
    exists i :: 0 <= i < |h| - 1 && h[i] == '.' && h[i + 1] == '.'
  }

  predicate HasLeadingDot(h: string) {
    h != "" && h[0] == '.'
  }

  predicate EveryLabelNonEmpty(labels: seq<string>) {
    forall i :: 0 <= i < |labels| ==> labels[i] != ""
  }

  predicate EndsInXAI(labels: seq<string>) {
    var n := |labels|;
    n >= 2 && labels[n - 2] == "x" && labels[n - 1] == "ai"
  }

  /** The body of IsXAIHost after trimming, lower-casing and dropping one trailing dot. */
  predicate PinsNormalized(h: string) {
    && h != ""
    && !HasDoubleDot(h)
    && !HasLeadingDot(h)
    && var labels := Split(h);
    && |labels| >= 2
    && EveryLabelNonEmpty(labels)
    && EndsInXAI(labels)
  }

  predicate IsXAIHost(host: string) {
    PinsNormalized(Normalize(host))
  }

  const MAX_URL_LEN := 2048

  /** What url.Parse leaves of a URL, as far as the pin looks at it. */
  datatype URL = URL(scheme: string, hostname: string)

  /** ValidateXAIURL returns nil. url.Parse is the parameter parse. */
  predicate ValidXAIURL(parse: string -> Option<URL>, raw: string) {
    var trimmed := Trim(raw);
    && trimmed != ""
    && |trimmed| <= MAX_URL_LEN
    && match parse(trimmed)
       case None => false
       case Some(u) => u.scheme == "https" && ToLower(u.hostname) != "" && IsXAIHost(ToLower(u.hostname))
  }

  // ----- the suffix rule, stated on characters and without labels

  /** Non-empty runs of other characters separated by single dots. */
  ghost predicate WellDotted(p: string) {
    p != "" && !HasLeadingDot(p) && p[|p| - 1] != '.' && !HasDoubleDot(p)
  }

  const ORIGIN_SUFFIX := ".x.ai"

  ghost predicate OnOrigin(h: string) {
    h == "x.ai" ||
    (|h| > 5 && h[|h| - 5..] == ORIGIN_SUFFIX && WellDotted(h[..|h| - 5]))
  }

  // ----- splitting

  lemma {:induction false} SplitConcat(p: string, q: string)
    ensures Split(p + "." + q) == Split(p) + Split(q)
  {
    if p == "" {
      assert (p + "." + q)[1..] == q;
    } else {
      assert (p + "." + q)[1..] == p[1..] + "." + q;
      SplitConcat(p[1..], q);
    }
  }

  lemma DoubleDotInTail(h: string)
    requires h != ""
    ensures HasDoubleDot(h) <==> (|h| > 1 && h[0] == '.' && h[1] == '.') || HasDoubleDot(h[1..])
  {
  }

  lemma {:induction false} NonEmptyLabelsAreWellDotted(h: string)
    ensures EveryLabelNonEmpty(Split(h)) <==> WellDotted(h)
  {
    var labels := Split(h);
    if h == "" || h[0] == '.' {
      assert labels[0] == "";
    } else {
      var t := h[1..];
      var rest := Split(t);
      assert labels[0] == [h[0]] + rest[0] && labels[1..] == rest[1..];
      DoubleDotInTail(h);
      if t != "" && t[0] == '.' {
        // the first label ends here: go on behind its dot
        var u := t[1..];
        assert rest == [""] + Split(u);
        assert labels[1..] == Split(u);
        NonEmptyLabelsAreWellDotted(u);
        DoubleDotInTail(t);
        EveryLabelBeyondFirst(labels);
      } else {
        NonEmptyLabelsAreWellDotted(t);
        EveryLabelBeyondFirst(labels);
        EveryLabelBeyondFirst(rest);
      }
    }
  }

  lemma EveryLabelBeyondFirst(labels: seq<string>)
    requires labels != []
    ensures EveryLabelNonEmpty(labels) <==> labels[0] != "" && EveryLabelNonEmpty(labels[1..])
  {
  }

  /** strings.Join(labels, "."). */
  function Join(labels: seq<string>): string
    requires labels != []
  {
    if |labels| == 1 then labels[0] else labels[0] + "." + Join(labels[1..])
  }

  lemma {:induction false} JoinUndoesSplit(h: string)
    ensures Join(Split(h)) == h
  {
    if h != "" {
      var rest := Split(h[1..]);
      JoinUndoesSplit(h[1..]);
      assert h == [h[0]] + h[1..];
      if h[0] == '.' {
        assert Split(h)[1..] == rest;
      } else {
        assert Split(h)[1..] == rest[1..];
      }
    }
  }

  lemma {:induction false} JoinAppendsOrigin(front: seq<string>)
    requires front != []
    ensures Join(front + ["x", "ai"]) == Join(front) + ORIGIN_SUFFIX
  {
    var all := front + ["x", "ai"];
    if |front| == 1 {
      assert all[1..] == ["x", "ai"];
      assert Join(all[1..]) == "x.ai";
    } else {
      assert all[1..] == front[1..] + ["x", "ai"];
      JoinAppendsOrigin(front[1..]);
      assert Join(all) == front[0] + "." + (Join(front[1..]) + ORIGIN_SUFFIX);
    }
  }

  /** The label test decides exactly the suffix rule. */
  lemma PinIsTheSuffixRule(h: string)
    ensures PinsNormalized(h) <==> OnOrigin(h)
  {
    NonEmptyLabelsAreWellDotted(h);
    if PinsNormalized(h) {
      PinnedHostHasSuffix(h);
    }
    if OnOrigin(h) {
      SuffixHostIsPinned(h);
    }
  }

  lemma PinnedHostHasSuffix(h: string)
    requires PinsNormalized(h)
    ensures OnOrigin(h)
  {
    var labels := Split(h);
    var front := labels[..|labels| - 2];
    assert labels == front + ["x", "ai"];
    JoinUndoesSplit(h);
    if front == [] {
      assert labels[1..] == ["ai"];
      assert h == "x.ai";
    } else {
      JoinAppendsOrigin(front);
      var p := Join(front);
      assert h[..|h| - 5] == p && h[|h| - 5..] == ORIGIN_SUFFIX;
      assert h == p + "." + "x.ai";
      SplitConcat(p, "x.ai");
      assert EveryLabelNonEmpty(Split(p)) by {
        assert forall i :: 0 <= i < |Split(p)| ==> Split(p)[i] == labels[i];
      }
      NonEmptyLabelsAreWellDotted(p);
    }
  }

  lemma SplitOrigin()
    ensures Split("x.ai") == ["x", "ai"]
  {
    SplitConcat("x", "ai");
    SplitDotless("x");
    SplitDotless("ai");
    assert "x" + "." + "ai" == "x.ai";
  }

  lemma {:induction false} SplitDotless(s: string)
    requires '.' !in s
    ensures Split(s) == [s]
  {
    if s != "" {
      SplitDotless(s[1..]);
      assert [s[0]] + s[1..] == s;
    }
  }

  lemma SuffixHostIsPinned(h: string)
    requires OnOrigin(h)
    ensures PinsNormalized(h)
  {
    SplitOrigin();
    if h != "x.ai" {
      var p := h[..|h| - 5];
      assert h == p + "." + "x.ai";
      SplitConcat(p, "x.ai");
      NonEmptyLabelsAreWellDotted(p);
    }
    assert EveryLabelNonEmpty(Split(h));
    NonEmptyLabelsAreWellDotted(h);
  }

  /** The early ".." and leading-dot rejections never decide: the label loop rejects those hosts too. */
  lemma EarlyDotTestsAreImplied(h: string)
    requires HasDoubleDot(h) || HasLeadingDot(h)
    ensures !EveryLabelNonEmpty(Split(h))
  {
    NonEmptyLabelsAreWellDotted(h);
  }

  /** Every subdomain of an accepted host is accepted. */
  lemma SubdomainsStayPinned(sub: string, h: string)
    requires sub != "" && '.' !in sub
    requires PinsNormalized(h)
    ensures PinsNormalized(sub + "." + h)
  {
    SplitConcat(sub, h);
    SplitDotless(sub);
    var labels := Split(sub + "." + h);
    assert labels == [sub] + Split(h);
    assert EveryLabelNonEmpty(labels) by {
      EveryLabelBeyondFirst(labels);
    }
    NonEmptyLabelsAreWellDotted(sub + "." + h);
  }

  // ----- any host, as it is given

  /** The name is on the origin, but for case and for one final dot. */
  ghost predicate NamesOrigin(name: string) {
    || OnOrigin(ToLower(name))
    || (name != "" && name[|name| - 1] == '.' && OnOrigin(ToLower(name[..|name| - 1])))
  }

  lemma OriginHasNoFinalDot(h: string)
    requires OnOrigin(h)
    ensures h != "" && h[|h| - 1] != '.'
  {
    if h != "x.ai" {
      assert h[|h| - 5..][4] == h[|h| - 1];
    }
  }

  lemma LowerOfFront(s: string)
    requires s != ""
    ensures ToLower(s[..|s| - 1]) == ToLower(s)[..|s| - 1]
    ensures s[|s| - 1] == '.' <==> ToLower(s)[|s| - 1] == '.'
  {
  }

  /** The pin accepts a host exactly if what is left without the white space at its ends names the
      origin. */
  lemma PinIsExact(host: string, name: string)
    requires TrimsTo(host, name)
    ensures IsXAIHost(host) <==> NamesOrigin(name)
  {
    TrimIsExact(host, name);
    PinIsTheSuffixRule(Normalize(host));
    var low := ToLower(name);
    if name != "" {
      LowerOfFront(name);
      if OnOrigin(low) {
        OriginHasNoFinalDot(low);
      }
    }
  }

  /** A plain host (no white space at its ends, no capitals, no final dot) is accepted exactly if it is
      on the origin. */
  lemma PlainHostIsPinnedExactly(h: string)
    requires Tidy(h) && ToLower(h) == h && (h != "" ==> h[|h| - 1] != '.')
    ensures IsXAIHost(h) <==> OnOrigin(h)
  {
    TrimLeavesTidyAlone(h);
    TrimIsExact(h, h);
    PinIsExact(h, h);
  }

  /** Case and one final dot make no difference to the pin. */
  lemma PinIgnoresCaseAndFinalDot(h: string)
    requires h != "" && Tidy(h) && h[|h| - 1] != '.'
    ensures IsXAIHost(h + ".") <==> IsXAIHost(h)
    ensures IsXAIHost(ToLower(h)) <==> IsXAIHost(h)
  {
    var low := ToLower(h);
    TrimLeavesTidyAlone(h);
    TrimLeavesTidyAlone(h + ".");
    TrimLeavesTidyAlone(low);
    assert ToLower(low) == low;
    assert ToLower(h + ".") == low + ".";
    assert Normalize(h) == low == Normalize(low);
    assert Normalize(h + ".") == low;
  }

  /** ValidateXAIURL accepts exactly an https URL of at most 2048 characters, not counting white space at
      the ends, on a host that the pin accepts. */
  lemma ValidURLIsExact(parse: string -> Option<URL>, raw: string, text: string)
    requires TrimsTo(raw, text)
    ensures ValidXAIURL(parse, raw) <==>
              && 1 <= |text| <= 2048
              && parse(text).Some? && parse(text).value.scheme == "https"
              && NamesOrigin(Trim(parse(text).value.hostname))
  {
    TrimIsExact(raw, text);
    if parse(text).Some? {
      LoweredHostIsPinnedAlike(parse(text).value.hostname);
    }
  }

  lemma LoweredHostIsPinnedAlike(host: string)
    ensures IsXAIHost(ToLower(host)) <==> NamesOrigin(Trim(host))
    ensures IsXAIHost(ToLower(host)) ==> ToLower(host) != ""
  {
    var name := Trim(host);
    TrimIsExact(host, name);
    LowerKeepsTrimming(host, name);
    PinIsExact(ToLower(host), ToLower(name));
    LowerTwice(name);
    if name != "" {
      LowerOfFront(name);
      LowerTwice(name[..|name| - 1]);
    }
  }

  lemma LowerTwice(s: string)
    ensures ToLower(ToLower(s)) == ToLower(s)
  {
  }
}
