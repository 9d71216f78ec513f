/**
 * HTTP header names as net/http stores them: `Header.Set` files a value
 * under net/textproto's canonical form of its key, so keys that differ
 * only in case name one header, and a loop of `Set` calls over a Go map
 * depends on the order `range` visits the map when two of its keys name
 * the same header.
 */
module Headers {
  import Strs

  /** A character of an HTTP token (section 3.2.6 of RFC 7230). */
  predicate TokenChar(c: char)
  {
    || 'a' <= c <= 'z' || 'A' <= c <= 'Z' || '0' <= c <= '9'
    || c == '!' || '#' <= c <= '\'' || c == '*' || c == '+' || c == '-' || c == '.'
    || '^' <= c <= '`' || c == '|' || c == '~'
  }

  /** Every character of `s` is a token character (the check `CanonicalMIMEHeaderKey` makes first). */
  predicate IsToken(s: string)
    decreases |s|
  {
    s == [] || (TokenChar(s[0]) && IsToken(s[1..]))
  }

  lemma {:induction false} TokenChars(s: string)
    ensures IsToken(s) <==> forall i | 0 <= i < |s| :: TokenChar(s[i])
    decreases |s|
  {
    if s != [] {
      TokenChars(s[1..]);
      assert forall i | 0 < i < |s| :: s[i] == s[1..][i - 1];
    }
  }

  function UpperChar(c: char): char
  {
    if 'a' <= c <= 'z' then (c as int - 32) as char else c
  }

  /** One character of the recasing loop: upper case when `upper`, lower case otherwise. */
  function Recased(c: char, upper: bool): char
  {
    if upper then UpperChar(c) else Strs.LowerChar(c)
  }

  /** The recasing loop: upper case first and after each `-`, lower case elsewhere. */
  function Recase(s: string, upper: bool): (r: string)
    ensures |r| == |s|
    decreases |s|
  {
    if s == [] then []
    else [Recased(s[0], upper)] + Recase(s[1..], s[0] == '-')
  }

  /** Character `i` is upper-cased exactly when it is first (and `upper`) or follows a `-`. */
  lemma {:induction false} RecaseAt(s: string, upper: bool)
    ensures forall i | 0 <= i < |s| :: Recase(s, upper)[i] == Recased(s[i], if i == 0 then upper else s[i - 1] == '-')
    decreases |s|
  {
    if s != [] {
      var rest := Recase(s[1..], s[0] == '-');
      RecaseAt(s[1..], s[0] == '-');
      assert Recase(s, upper) == [Recased(s[0], upper)] + rest;
      forall i | 0 < i < |s|
        ensures Recase(s, upper)[i] == Recased(s[i], s[i - 1] == '-')
      {
        assert Recase(s, upper)[i] == rest[i - 1];
        assert s[1..][i - 1] == s[i];
        if i > 1 {
          assert s[1..][i - 2] == s[i - 1];
        }
      }
    }
  }

  /**
   * net/textproto's `CanonicalMIMEHeaderKey`, which `Header.Set` applies to
   * its key: a key of token characters is recased, so `content-type` and
   * `CONTENT-TYPE` both become `Content-Type`; any other key is kept as given.
   */
  function CanonicalKey(k: string): (r: string)
    ensures |r| == |k|
    ensures !IsToken(k) ==> r == k
  {
    if IsToken(k) then Recase(k, true) else k
  }

  /** Each character of a token key is upper-cased when first or after a `-`, lower-cased otherwise. */
  lemma CanonicalAt(k: string)
    requires IsToken(k)
    ensures forall i | 0 <= i < |k| :: CanonicalKey(k)[i] == Recased(k[i], i == 0 || k[i - 1] == '-')
  {
    RecaseAt(k, true);
    assert CanonicalKey(k) == Recase(k, true);
  }

  /** Recasing a character keeps it a token character, keeps `-` apart, and forgets the old case. */
  lemma CaseChar(c: char, upper: bool)
    ensures TokenChar(Recased(c, upper)) == TokenChar(c)
    ensures (Recased(c, upper) == '-') == (c == '-')
    ensures Recased(Recased(c, upper), upper) == Recased(c, upper)
    ensures Recased(Strs.LowerChar(c), upper) == Recased(c, upper)
    ensures Strs.LowerChar(Recased(c, upper)) == Strs.LowerChar(c)
  {
  }

  /** A canonical key is its own canonical form. */
  lemma CanonicalIdempotent(k: string)
    ensures CanonicalKey(CanonicalKey(k)) == CanonicalKey(k)
  {
    var r := CanonicalKey(k);
    if IsToken(k) {
      CanonicalAt(k);
      TokenChars(k);
      TokenChars(r);
      forall i | 0 <= i < |r|
        ensures TokenChar(r[i])
        ensures r[i] == '-' <==> k[i] == '-'
      {
        CaseChar(k[i], i == 0 || k[i - 1] == '-');
      }
      CanonicalAt(r);
      forall i | 0 <= i < |r| ensures CanonicalKey(r)[i] == r[i] {
        CaseChar(k[i], i == 0 || k[i - 1] == '-');
      }
    }
  }

  /**
   * A token key names the same header as any key that agrees with it up to
   * ASCII case. (Keys with other characters are not recased, so `X Y` and
   * `x y` stay two headers.)
   */
  lemma CanonicalIgnoresCase(a: string, b: string)
    ensures IsToken(a) && Strs.Lower(a) == Strs.Lower(b) ==> CanonicalKey(a) == CanonicalKey(b)
  {
    TokenChars(a);
    TokenChars(b);
    if IsToken(a) && Strs.Lower(a) == Strs.Lower(b) {
      CanonicalAt(a);
      assert |a| == |b| by { assert |Strs.Lower(a)| == |a| && |Strs.Lower(b)| == |b|; }
      forall i | 0 <= i < |a|
        ensures TokenChar(a[i]) == TokenChar(b[i])
        ensures a[i] == '-' <==> b[i] == '-'
        ensures forall u: bool :: Recased(a[i], u) == Recased(b[i], u)
      {
        assert Strs.Lower(a)[i] == Strs.Lower(b)[i];
        CaseChar(a[i], false);
        CaseChar(b[i], false);
        forall u: bool ensures Recased(a[i], u) == Recased(b[i], u) {
          CaseChar(a[i], u);
          CaseChar(b[i], u);
        }
      }
      assert IsToken(b);
      CanonicalAt(b);
      forall i | 0 <= i < |a| ensures CanonicalKey(a)[i] == CanonicalKey(b)[i] {
        var u := i == 0 || a[i - 1] == '-';
        if i > 0 {
          assert a[i - 1] == '-' <==> b[i - 1] == '-';
        }
        assert u == (i == 0 || b[i - 1] == '-');
        assert Recased(a[i], u) == Recased(b[i], u);
      }
    }
  }

  /** Conversely, a key naming the same header as a token key agrees with it up to ASCII case. */
  lemma CanonicalDeterminesCase(a: string, b: string)
    ensures IsToken(a) && CanonicalKey(a) == CanonicalKey(b) ==> Strs.Lower(a) == Strs.Lower(b)
  {
    TokenChars(a);
    TokenChars(b);
    if IsToken(a) && CanonicalKey(a) == CanonicalKey(b) {
      var r := CanonicalKey(a);
      CanonicalAt(a);
      assert IsToken(b) by {
        if !IsToken(b) {
          var j :| 0 <= j < |b| && !TokenChar(b[j]);
          CaseChar(a[j], j == 0 || a[j - 1] == '-');
        }
      }
      CanonicalAt(b);
      forall i | 0 <= i < |a| ensures Strs.Lower(a)[i] == Strs.Lower(b)[i] {
        var ua, ub := i == 0 || a[i - 1] == '-', i == 0 || b[i - 1] == '-';
        CaseChar(a[i], ua);
        CaseChar(b[i], ub);
        assert r[i] == Recased(a[i], ua) && r[i] == Recased(b[i], ub);
        assert Strs.LowerChar(a[i]) == Strs.LowerChar(r[i]) == Strs.LowerChar(b[i]);
      }
    }
  }

  lemma {:induction false} TokenAppend(a: string, b: string)
    ensures IsToken(a + b) == (IsToken(a) && IsToken(b))
    decreases |a|
  {
    if a == [] {
      assert a + b == b;
    } else {
      TokenAppend(a[1..], b);
      assert (a + b)[1..] == a[1..] + b;
    }
  }

  /** Recasing runs on across a split: the second part starts after the first part's last character. */
  lemma {:induction false} RecaseAppend(a: string, b: string, upper: bool)
    requires a != []
    ensures Recase(a + b, upper) == Recase(a, upper) + Recase(b, a[|a| - 1] == '-')
    decreases |a|
  {
    if |a| > 1 {
      RecaseAppend(a[1..], b, a[0] == '-');
      assert (a + b)[1..] == a[1..] + b;
    } else {
      assert (a + b)[1..] == b;
    }
  }

  /** The header `WithJSON` sets (written in two parts, which keeps proofs about it cheap). */
  const ContentType: string := "Content-" + "Type"

  /** `Content-Type` is already canonical: `Header.Set` files it under its own spelling. */
  lemma ContentTypeIsCanonical()
    ensures CanonicalKey(ContentType) == ContentType
  {
    ContentTypeParts();
    assert "Content-" == "Cont" + "ent-";
    TokenAppend("Cont", "ent-");
    TokenAppend("Content-", "Type");
    RecaseAppend("Cont", "ent-", true);
    RecaseAppend("Content-", "Type", true);
  }

  lemma ContentTypeParts()
    ensures IsToken("Cont") && IsToken("ent-") && IsToken("Type")
    ensures Recase("Cont", true) == "Cont" && Recase("ent-", false) == "ent-" && Recase("Type", true) == "Type"
  {
  }

  /**
   * The header map after `for k, v := range headers { h.Header.Set(k, v) }`
   * when `range` visits the keys in `order` (an order Go leaves unspecified).
   */
  function Overwrite(header: map<string, string>, headers: map<string, string>, order: seq<string>): map<string, string>
    decreases |order|
  {
    if order == [] then header
    else
      var h := Overwrite(header, headers, order[..|order| - 1]);
      var k := order[|order| - 1];
      if k in headers then h[CanonicalKey(k) := headers[k]] else h
  }

  /** An order in which `range` may visit the keys of `m`: each key once. */
  predicate Visits(order: seq<string>, m: map<string, string>)
  {
    && (forall k | k in m :: k in order)
    && (forall k | k in order :: k in m)
    && (forall i, j | 0 <= i < j < |order| :: order[i] != order[j])
  }

  /** Visit `i` is the last one that sets its header. */
  predicate LastVisited(headers: map<string, string>, order: seq<string>, i: int)
    requires 0 <= i < |order|
  {
    order[i] in headers
    && forall j | i < j < |order| && order[j] in headers :: CanonicalKey(order[j]) != CanonicalKey(order[i])
  }

  /** The header names after the loop: the old ones and the canonical forms of the visited keys. */
  lemma {:induction false} OverwriteKeys(header: map<string, string>, headers: map<string, string>, order: seq<string>)
    ensures Overwrite(header, headers, order).Keys
      == header.Keys + (set i | 0 <= i < |order| && order[i] in headers :: CanonicalKey(order[i]))
    decreases |order|
  {
    if order != [] {
      var n := |order| - 1;
      var init := order[..n];
      var k := order[n];
      OverwriteKeys(header, headers, init);
      var keysInit := set i | 0 <= i < |init| && init[i] in headers :: CanonicalKey(init[i]);
      var keysAll := set i | 0 <= i < |order| && order[i] in headers :: CanonicalKey(order[i]);
      assert keysAll == keysInit + (if k in headers then {CanonicalKey(k)} else {}) by {
        forall x | x in keysAll ensures x in keysInit + (if k in headers then {CanonicalKey(k)} else {}) {
          var i :| 0 <= i < |order| && order[i] in headers && x == CanonicalKey(order[i]);
          if i < n { assert init[i] == order[i]; }
        }
        forall x | x in keysInit ensures x in keysAll {
          var i :| 0 <= i < |init| && init[i] in headers && x == CanonicalKey(init[i]);
          assert order[i] == init[i];
        }
      }
    }
  }

  /** Among the visited keys naming one header, the one visited last sets it. */
  lemma {:induction false} OverwriteLastWins(header: map<string, string>, headers: map<string, string>, order: seq<string>)
    ensures forall i | 0 <= i < |order| && LastVisited(headers, order, i) ::
      CanonicalKey(order[i]) in Overwrite(header, headers, order)
      && Overwrite(header, headers, order)[CanonicalKey(order[i])] == headers[order[i]]
    decreases |order|
  {
    if order != [] {
      var n := |order| - 1;
      var init := order[..n];
      OverwriteLastWins(header, headers, init);
      var r := Overwrite(header, headers, order);
      forall i | 0 <= i < |order| && LastVisited(headers, order, i)
        ensures CanonicalKey(order[i]) in r && r[CanonicalKey(order[i])] == headers[order[i]]
      {
        if i < n {
          assert init[i] == order[i];
          assert LastVisited(headers, init, i) by {
            forall j | i < j < |init| && init[j] in headers ensures CanonicalKey(init[j]) != CanonicalKey(init[i]) {
              assert init[j] == order[j];
            }
          }
        }
      }
    }
  }

  /** A header that no visited key names keeps its value. */
  lemma {:induction false} OverwriteKeeps(header: map<string, string>, headers: map<string, string>, order: seq<string>)
    ensures forall h | h in header && (forall i | 0 <= i < |order| && order[i] in headers :: CanonicalKey(order[i]) != h) ::
      h in Overwrite(header, headers, order) && Overwrite(header, headers, order)[h] == header[h]
    decreases |order|
  {
    if order != [] {
      var n := |order| - 1;
      var init := order[..n];
      OverwriteKeeps(header, headers, init);
      var r := Overwrite(header, headers, order);
      forall x | x in header && (forall i | 0 <= i < |order| && order[i] in headers :: CanonicalKey(order[i]) != x)
        ensures x in r && r[x] == header[x]
      {
        forall i | 0 <= i < |init| && init[i] in headers ensures CanonicalKey(init[i]) != x {
          assert init[i] == order[i];
        }
        assert order[n] in headers ==> CanonicalKey(order[n]) != x;
      }
    }
  }

  /**
   * With `order` a visiting order of `headers`: the result names the old
   * headers and the canonical form of every given key; a key that is the
   * only one naming its header sets it; untouched headers keep their values.
   */
  lemma OverwriteSpec(header: map<string, string>, headers: map<string, string>, order: seq<string>)
    requires Visits(order, headers)
    ensures Overwrite(header, headers, order).Keys == header.Keys + (set k | k in headers :: CanonicalKey(k))
    ensures forall k | k in headers && (forall j | j in headers && CanonicalKey(j) == CanonicalKey(k) :: j == k) ::
      Overwrite(header, headers, order)[CanonicalKey(k)] == headers[k]
    ensures forall h | h in header && (forall k | k in headers :: CanonicalKey(k) != h) ::
      Overwrite(header, headers, order)[h] == header[h]
  {
    var r := Overwrite(header, headers, order);
    assert r.Keys == header.Keys + (set k | k in headers :: CanonicalKey(k)) by {
      OverwriteKeys(header, headers, order);
      var byIndex := set i | 0 <= i < |order| && order[i] in headers :: CanonicalKey(order[i]);
      var byKey := set k | k in headers :: CanonicalKey(k);
      assert byIndex == byKey by {
        forall x | x in byKey ensures x in byIndex {
          var k :| k in headers && x == CanonicalKey(k);
          assert k in order;
          var i :| 0 <= i < |order| && order[i] == k;
        }
      }
    }
    forall k | k in headers && (forall j | j in headers && CanonicalKey(j) == CanonicalKey(k) :: j == k)
      ensures r[CanonicalKey(k)] == headers[k]
    {
      OverwriteLastWins(header, headers, order);
      assert k in order;
      var i :| 0 <= i < |order| && order[i] == k;
      assert LastVisited(headers, order, i);
    }
    forall h | h in header && (forall k | k in headers :: CanonicalKey(k) != h) ensures r[h] == header[h] {
      OverwriteKeeps(header, headers, order);
      forall i | 0 <= i < |order| && order[i] in headers ensures CanonicalKey(order[i]) != h {
      }
    }
  }

  /**
   * Setting any spelling of a header replaces that header: with `name`
   * canonical (as `ContentType` is), `Set("content-type", v)` on a header
   * map holding `Content-Type` leaves one `Content-Type` entry, `v`, and
   * every other header as it was.
   */
  lemma CaseVariantOverrides(header: map<string, string>, name: string, variant: string, after: string)
    requires IsToken(variant) && Strs.Lower(variant) == Strs.Lower(name) && CanonicalKey(name) == name
    ensures Overwrite(header, map[variant := after], [variant]) == header[name := after]
  {
    CanonicalIgnoresCase(variant, name);
    assert [variant][..0] == [];
  }

  /** The loop of `headerMiddleware` (and of `do`): `Header.Set` for each entry, in the visiting order. */
  method SetHeaders(header: map<string, string>, headers: map<string, string>, order: seq<string>)
    returns (result: map<string, string>)
    ensures result == Overwrite(header, headers, order)
  {
    result := header;
    for i := 0 to |order|
      invariant result == Overwrite(header, headers, order[..i])
    {
      assert order[..i + 1][..i] == order[..i];
      var k := order[i];
      if k in headers {
        result := result[CanonicalKey(k) := headers[k]];
      }
    }
    assert order[..|order|] == order;
  }
}
