/** The text of an artwork alias file, and what reading it back accepts. */
module ArtworkAlias {
  import opened Basics
  import Decimal

  const MAGIC := "musicata-artwork-v1"
  const U64_LIMIT: nat := 0x1_0000_0000_0000_0000

  datatype Alias = Alias(key: string, extension: string, hash: string, len: nat, lastAccess: nat)

  predicate SafeExtension(s: string) {
    && (forall i :: 0 <= i < |s| ==> s[i] !in {'/', '\\', '\n', '\r'})
    && s != "." && s != ".."
  }

  predicate SafeComponent(s: string) { s != "" && SafeExtension(s) }

  predicate HexDigit(c: char) { '0' <= c <= '9' || 'a' <= c <= 'f' || 'A' <= c <= 'F' }

  predicate WellFormed(a: Alias) {
    && SafeComponent(a.key) && SafeExtension(a.extension)
    && |a.hash| == 64 && (forall i :: 0 <= i < 64 ==> HexDigit(a.hash[i]))
    && a.len < U64_LIMIT && a.lastAccess < U64_LIMIT
  }

  function Lines(fields: seq<string>): string {
    if fields == [] then "" else fields[0] + "\n" + Lines(fields[1..])
  }

  function Encode(a: Alias): string {
    Lines([MAGIC, a.key, a.extension, a.hash, Decimal.ToString(a.len), Decimal.ToString(a.lastAccess)])
  }

  /** The text up to the first newline. */
  function LineEnd(text: string, i: nat): (e: nat)
    requires i <= |text|
    ensures i <= e <= |text| && (e < |text| ==> text[e] == '\n')
    ensures forall j :: i <= j < e ==> text[j] != '\n'
    decreases |text| - i
  {
    if i == |text| || text[i] == '\n' then i else LineEnd(text, i + 1)
  }

  /** Fields ended by newlines; a last field may lack its newline. */
  function SplitTerminator(text: string): seq<string>
    decreases |text|
  {
    if text == "" then []
    else
      var e := LineEnd(text, 0);
      if e == |text| then [text] else [text[..e]] + SplitTerminator(text[e + 1..])
  }

  function Parse(text: string): Option<Alias> { ParseFields(SplitTerminator(text)) }

  function ParseFields(fields: seq<string>): Option<Alias> {
    if |fields| < 5 || |fields| > 6 || fields[0] != MAGIC then None
    else
      var len, lastAccess := Decimal.Parse(fields[4], U64_LIMIT), if |fields| == 6
                                                                    then Decimal.Parse(fields[5], U64_LIMIT)
                                                                    else Some(0);
      if len.None? || lastAccess.None? then None
      else
        var a := Alias(fields[1], fields[2], fields[3], len.value, lastAccess.value);
        if WellFormed(a) then Some(a) else None
  }

  predicate OneLine(s: string) { forall i :: 0 <= i < |s| ==> s[i] != '\n' }

  lemma {:induction false} SplitLines(fields: seq<string>)
    requires forall i :: 0 <= i < |fields| ==> OneLine(fields[i])
    ensures SplitTerminator(Lines(fields)) == fields
  {
    if fields != [] {
      var text, head := Lines(fields), fields[0];
      assert OneLine(head);
      LineEndAt(text, 0, |head|);
      assert text[..|head|] == head && text[|head| + 1..] == Lines(fields[1..]);
      SplitLines(fields[1..]);
    }
  }

  lemma {:induction false} LineEndAt(text: string, i: nat, e: nat)
    requires i <= e < |text| && text[e] == '\n'
    requires forall j :: i <= j < e ==> text[j] != '\n'
    ensures LineEnd(text, i) == e
    decreases e - i
  {
    if i < e { LineEndAt(text, i + 1, e); }
  }

  /** An alias on one line per field reads back as itself exactly when it is well formed. */
  lemma AliasRoundTrip(a: Alias)
    requires OneLine(a.key) && OneLine(a.extension) && OneLine(a.hash)
    ensures Parse(Encode(a)) == if WellFormed(a) then Some(a) else None
  {
    var fields := [MAGIC, a.key, a.extension, a.hash, Decimal.ToString(a.len), Decimal.ToString(a.lastAccess)];
    assert Encode(a) == Lines(fields);
    forall i | 0 <= i < |fields| ensures OneLine(fields[i]) {}
    SplitLines(fields);
    FieldsReadBack(a);
  }

  lemma FieldsReadBack(a: Alias)
    ensures ParseFields([MAGIC, a.key, a.extension, a.hash, Decimal.ToString(a.len), Decimal.ToString(a.lastAccess)]) ==
            if WellFormed(a) then Some(a) else None
  {
    Decimal.ParseToString(a.len, U64_LIMIT);
    Decimal.ParseToString(a.lastAccess, U64_LIMIT);
  }

  // ---- Which texts are aliases ------------------------------------------------------

  /** A component that names no other directory and stays on its line. */
  ghost predicate PlainName(s: string) {
    s !in {".", ".."} && forall c :: c in s ==> c !in {'/', '\\', '\n', '\r'}
  }

  ghost predicate IsHash(s: string) {
    |s| == 64 && forall c :: c in s ==> '0' <= c <= '9' || 'a' <= c <= 'f' || 'A' <= c <= 'F'
  }

  lemma WellFormedMeaning(a: Alias)
    ensures WellFormed(a) <==>
              && a.key != "" && PlainName(a.key) && PlainName(a.extension) && IsHash(a.hash)
              && a.len <= 0xffff_ffff_ffff_ffff && a.lastAccess <= 0xffff_ffff_ffff_ffff
  {
    assert SafeExtension(a.key) <==> PlainName(a.key) by { NamesAgree(a.key); }
    assert SafeExtension(a.extension) <==> PlainName(a.extension) by { NamesAgree(a.extension); }
    forall i | 0 <= i < |a.hash| ensures a.hash[i] in a.hash {}
  }

  lemma NamesAgree(s: string)
    ensures SafeExtension(s) <==> PlainName(s)
  {
    forall i | 0 <= i < |s| ensures s[i] in s {}
  }

  /** The text is these fields, one a line; the last newline may be missing. */
  ghost predicate Reads(text: string, fields: seq<string>) {
    && (forall i :: 0 <= i < |fields| ==> OneLine(fields[i]))
    && (text == Lines(fields) || (text + "\n" == Lines(fields) && fields != [] && fields[|fields| - 1] != ""))
  }

  lemma {:induction false} SplitReads(text: string)
    ensures Reads(text, SplitTerminator(text))
    decreases |text|
  {
    if text != "" {
      var e := LineEnd(text, 0);
      if e == |text| {
        assert [text][1..] == [];
        assert Lines([text]) == text + "\n" + "";
      } else {
        var rest := text[e + 1..];
        SplitReads(rest);
        var fields := SplitTerminator(text);
        assert fields == [text[..e]] + SplitTerminator(rest) && fields[1..] == SplitTerminator(rest);
        assert text == text[..e] + "\n" + rest;
        forall i | 0 <= i < |fields| ensures OneLine(fields[i]) {
          if i > 0 { assert fields[i] == SplitTerminator(rest)[i - 1]; }
        }
        if rest != Lines(SplitTerminator(rest)) {
          assert text + "\n" == text[..e] + "\n" + (rest + "\n");
        }
      }
    }
  }

  lemma {:induction false} ReadsOnce(text: string, fields: seq<string>)
    requires Reads(text, fields)
    ensures SplitTerminator(text) == fields
    decreases |fields|
  {
    if text == Lines(fields) {
      SplitLines(fields);
    } else {
      var head, more := fields[0], fields[1..];
      assert OneLine(head);
      assert text + "\n" == head + "\n" + Lines(more);
      if more == [] {
        assert fields == [head] && (head + "\n" + Lines(more))[..|head|] == head;
        assert text == (text + "\n")[..|text|] == head;
        NoLineEnd(text);
      } else {
        assert more[|more| - 1] == fields[|fields| - 1];
        LinesNonEmpty(more);
        assert |text| >= |head| + 2;
        var rest := text[|head| + 1..];
        assert (head + "\n" + Lines(more))[..|head|] == head &&
                  (head + "\n" + Lines(more))[|head| + 1..] == Lines(more);
        assert text[..|head|] == (text + "\n")[..|head|] == head;
        assert text[|head|] == (text + "\n")[|head|] == '\n';
        assert rest + "\n" == (text + "\n")[|head| + 1..] == Lines(more);
        forall k | 0 <= k < |head| ensures text[k] != '\n' { assert text[k] == text[..|head|][k]; }
        LineEndAt(text, 0, |head|);
        forall k | 0 <= k < |more| ensures OneLine(more[k]) { assert more[k] == fields[k + 1]; }
        ReadsOnce(rest, more);
      }
    }
  }

  lemma NoLineEnd(text: string)
    requires OneLine(text) && text != ""
    ensures SplitTerminator(text) == [text]
  {
  }

  lemma LinesNonEmpty(fields: seq<string>)
    requires fields != [] && fields[|fields| - 1] != ""
    ensures |Lines(fields)| >= 2
  {
    if |fields| > 1 { LinesNonEmpty(fields[1..]); }
  }

  /** An alias is read from a text exactly when the text has the version line and four or five more, the
      numbers can be read, and the rest is well formed; a missing last access reads as never. */
  lemma ParseMeaning(text: string, a: Alias)
    ensures Parse(text) == Some(a) <==> exists fields :: IsAlias(text, fields, a)
  {
    SplitReads(text);
    WellFormedMeaning(a);
    if Parse(text) == Some(a) { assert IsAlias(text, SplitTerminator(text), a); }
    if fields :| IsAlias(text, fields, a) {
      ReadsOnce(text, fields);
      NumbersFit(fields[4], a.len);
      if |fields| == 6 { NumbersFit(fields[5], a.lastAccess); }
    }
  }

  lemma NumbersFit(s: string, n: nat)
    requires Decimal.Parse(s, 0x1_0000_0000_0000_0000) == Some(n)
    ensures n <= 0xffff_ffff_ffff_ffff
  {
  }

  ghost predicate IsAlias(text: string, fields: seq<string>, a: Alias) {
    && Reads(text, fields) && |fields| in {5, 6} && fields[0] == "musicata-artwork-v1"
    && a.key == fields[1] && a.extension == fields[2] && a.hash == fields[3]
    && Decimal.Parse(fields[4], 0x1_0000_0000_0000_0000) == Some(a.len)
    && (if |fields| == 6 then Decimal.Parse(fields[5], 0x1_0000_0000_0000_0000) == Some(a.lastAccess)
          else a.lastAccess == 0)
    && a.key != "" && PlainName(a.key) && PlainName(a.extension) && IsHash(a.hash)
  }
}
