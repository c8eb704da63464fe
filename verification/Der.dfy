// The minimal DER reader: tag-length-value triples at an offset, the children
// of a constructed value, and the three display fields of a certificate.
module Der {
  import opened Wrappers
  import opened Bytes

  datatype Tlv = Tlv(tag: byte, value: seq<byte>, next: nat)

  function Min(a: nat, b: nat): nat {
    if a < b then a else b
  }

  /** A slice clipped at the end of the data. */
  function Slice(data: seq<byte>, start: nat, end: nat): seq<byte>
    requires start <= end
  {
    data[Min(start, |data|)..Min(end, |data|)]
  }

  /** None is an index past the end of the data: the two header bytes are not both there. */
  function ReadTlv(data: seq<byte>, offset: nat): (t: Option<Tlv>)
    ensures t.Some? ==> t.value.next >= offset + 2
    ensures t.None? <==> offset + 1 >= |data|
  {
    if offset + 1 >= |data| then None
    else
      var lengthByte := data[offset + 1] as int;
      var k := if lengthByte >= 128 then lengthByte - 128 else 0;
      var start := offset + 2 + k;
      var length := if lengthByte >= 128 then FromBE(Slice(data, offset + 2, start)) else lengthByte;
      Some(Tlv(data[offset], Slice(data, start, start + length), start + length))
  }

  type Child = (byte, seq<byte>)

  function ChildrenFrom(content: seq<byte>, offset: nat): (children: Option<seq<Child>>)
    decreases |content| - offset
  {
    if offset >= |content| then Some([])
    else
      var t := ReadTlv(content, offset);
      if t.None? then None
      else Prepend([(t.value.tag, t.value.value)], ChildrenFrom(content, t.value.next))
  }

  function Children(content: seq<byte>): Option<seq<Child>> {
    ChildrenFrom(content, 0)
  }

  /** The reader's loop; every round advances by at least the two header bytes. */
  method IterChildren(content: seq<byte>) returns (r: Option<seq<Child>>)
    ensures r == Children(content)
  {
    var children: seq<Child> := [];
    var offset: nat := 0;
    ghost var goal := Children(content);
    PrependNone([], goal);
    while offset < |content|
      invariant goal == Prepend(children, ChildrenFrom(content, offset))
      decreases |content| - offset
    {
      var t := ReadTlv(content, offset);
      if t.None? {
        return None;
      }
      PrependTwice(children, [(t.value.tag, t.value.value)], ChildrenFrom(content, t.value.next));
      children := children + [(t.value.tag, t.value.value)];
      offset := t.value.next;
    }
    assert children + [] == children;
    return Some(children);
  }

  // --- Encodings ---

  /** How a length is written: in the header byte itself, or big-endian in the k bytes after it. */
  datatype Form = Short | Long(k: nat)

  predicate Fits(length: nat, form: Form) {
    match form
    case Short => length < 128
    case Long(k) => k <= 127 && length < Pow256(k)
  }

  function Header(tag: byte, length: nat, form: Form): seq<byte>
    requires Fits(length, form)
  {
    match form
    case Short => [tag, length]
    case Long(k) => [tag, 128 + k] + BE(length, k)
  }

  function Encode(child: Child, form: Form): (s: seq<byte>)
    requires Fits(|child.1|, form)
    ensures |s| >= 2
  {
    Header(child.0, |child.1|, form) + child.1
  }

  predicate AllFit(children: seq<Child>, forms: seq<Form>) {
    |forms| == |children| && forall i :: 0 <= i < |children| ==> Fits(|children[i].1|, forms[i])
  }

  function EncodeAll(children: seq<Child>, forms: seq<Form>): seq<byte>
    requires AllFit(children, forms)
  {
    if children == [] then [] else Encode(children[0], forms[0]) + EncodeAll(children[1..], forms[1..])
  }

  /** Wherever an encoded value stands, it is read back and the reader moves just behind it. */
  lemma ReadEncoded(before: seq<byte>, child: Child, form: Form, more: seq<byte>)
    requires Fits(|child.1|, form)
    ensures ReadTlv(before + Encode(child, form) + more, |before|)
         == Some(Tlv(child.0, child.1, |before| + |Encode(child, form)|))
  {
    hide FromBE, BE;
    var (tag, value) := child;
    var data := before + Encode(child, form) + more;
    var p := |before|;
    var header := Header(tag, |value|, form);
    var start := p + |header|;
    assert data[p] == tag && data[p + 1] == header[1];
    if form.Long? {
      var k := form.k;
      assert data[p + 2..p + 2 + k] == BE(|value|, k);
      BERoundTrip(|value|, k);
    }
    assert data[start..start + |value|] == value;
  }

  lemma {:induction false} RoundTripFrom(before: seq<byte>, children: seq<Child>, forms: seq<Form>)
    requires AllFit(children, forms)
    ensures ChildrenFrom(before + EncodeAll(children, forms), |before|) == Some(children)
    decreases |children|
  {
    hide ReadTlv, Encode;
    if children == [] {
      assert before + [] == before;
    } else {
      var first := Encode(children[0], forms[0]);
      var rest := EncodeAll(children[1..], forms[1..]);
      assert before + (first + rest) == before + first + rest;
      ReadEncoded(before, children[0], forms[0], rest);
      RoundTripFrom(before + first, children[1..], forms[1..]);
      assert [children[0]] + children[1..] == children;
    }
  }

  /** Any list of values, each with a short or long definite length, is returned as it was encoded. */
  lemma RoundTrip(children: seq<Child>, forms: seq<Form>)
    requires AllFit(children, forms)
    ensures Children(EncodeAll(children, forms)) == Some(children)
  {
    RoundTripFrom([], children, forms);
    assert [] + EncodeAll(children, forms) == EncodeAll(children, forms);
  }

  // --- What a successful read means ---

  /** No value is cut off by the end of the data. */
  predicate WholeFrom(content: seq<byte>, offset: nat)
    decreases |content| - offset
  {
    if offset >= |content| then offset == |content|
    else
      var t := ReadTlv(content, offset);
      t.Some? && WholeFrom(content, t.value.next)
  }

  /** The length forms found along the way. */
  function FormsFrom(content: seq<byte>, offset: nat): seq<Form>
    decreases |content| - offset
  {
    if offset + 1 >= |content| then []
    else
      var b := content[offset + 1] as int;
      [if b >= 128 then Long(b - 128) else Short] + FormsFrom(content, ReadTlv(content, offset).value.next)
  }

  lemma {:induction false} FromBEInverse(s: seq<byte>)
    ensures BE(FromBE(s), |s|) == s
    decreases |s|
  {
    if s != [] {
      var front := s[..|s| - 1];
      FromBEInverse(front);
      assert FromBE(s) / 256 == FromBE(front) && FromBE(s) % 256 == s[|s| - 1] as int;
      assert s == front + [s[|s| - 1]];
    }
  }

  lemma ReadIsEncoding(content: seq<byte>, offset: nat)
    requires offset + 1 < |content| && ReadTlv(content, offset).value.next <= |content|
    ensures var t := ReadTlv(content, offset).value;
            var b := content[offset + 1] as int;
            var form := if b >= 128 then Long(b - 128) else Short;
            Fits(|t.value|, form) && content[offset..t.next] == Encode((t.tag, t.value), form)
  {
    hide FromBE, BE;
    var t := ReadTlv(content, offset).value;
    var b := content[offset + 1] as int;
    if b >= 128 {
      var k := b - 128;
      var s := content[offset + 2..offset + 2 + k];
      FromBEBound(s);
      FromBEInverse(s);
      assert content[offset..t.next] == [t.tag, 128 + k] + s + t.value;
    } else {
      assert content[offset..t.next] == [t.tag, b] + t.value;
    }
  }

  lemma {:induction false} WholeIsEncoding(content: seq<byte>, offset: nat)
    requires WholeFrom(content, offset)
    ensures offset <= |content|
    ensures ChildrenFrom(content, offset).Some?
    ensures var children, forms := ChildrenFrom(content, offset).value, FormsFrom(content, offset);
            AllFit(children, forms) && content[offset..] == EncodeAll(children, forms)
    decreases |content| - offset
  {
    hide Encode;
    if offset < |content| {
      var t := ReadTlv(content, offset).value;
      WholeIsEncoding(content, t.next);
      ReadIsEncoding(content, offset);
      var children, forms := ChildrenFrom(content, t.next).value, FormsFrom(content, t.next);
      var b := content[offset + 1] as int;
      var form := if b >= 128 then Long(b - 128) else Short;
      EncodeCons((t.tag, t.value), form, children, forms);
      assert content[offset..] == content[offset..t.next] + content[t.next..];
    } else {
      assert content[offset..] == [];
    }
  }

  lemma EncodeCons(child: Child, form: Form, children: seq<Child>, forms: seq<Form>)
    requires Fits(|child.1|, form) && AllFit(children, forms)
    ensures AllFit([child] + children, [form] + forms)
    ensures EncodeAll([child] + children, [form] + forms) == Encode(child, form) + EncodeAll(children, forms)
  {
    hide Encode;
    assert ([child] + children)[1..] == children && ([form] + forms)[1..] == forms;
  }

  lemma {:induction false} EncodingIsWhole(before: seq<byte>, children: seq<Child>, forms: seq<Form>)
    requires AllFit(children, forms)
    ensures WholeFrom(before + EncodeAll(children, forms), |before|)
    decreases |children|
  {
    hide ReadTlv, Encode;
    if children != [] {
      var first := Encode(children[0], forms[0]);
      var rest := EncodeAll(children[1..], forms[1..]);
      assert before + (first + rest) == before + first + rest;
      ReadEncoded(before, children[0], forms[0], rest);
      EncodingIsWhole(before + first, children[1..], forms[1..]);
    }
  }

  /** Bytes are read to the end without clipping exactly when they are an encoding, of the very children returned. */
  lemma WholeIff(content: seq<byte>)
    ensures WholeFrom(content, 0) <==>
            exists children: seq<Child>, forms: seq<Form> :: AllFit(children, forms) && content == EncodeAll(children, forms)
    ensures WholeFrom(content, 0) ==>
              Children(content).Some? && AllFit(Children(content).value, FormsFrom(content, 0))
              && content == EncodeAll(Children(content).value, FormsFrom(content, 0))
  {
    assert content[0..] == content;
    if WholeFrom(content, 0) {
      WholeIsEncoding(content, 0);
    }
    forall children: seq<Child>, forms: seq<Form> | AllFit(children, forms) && content == EncodeAll(children, forms)
      ensures WholeFrom(content, 0)
    {
      EncodingIsWhole([], children, forms);
      assert [] + EncodeAll(children, forms) == content;
    }
  }

  // --- Certificates ---

  /** The source's own text conversions: an attribute as `name=value`, and a time if it can be read. */
  datatype Texts = Texts(attribute: (seq<byte>, seq<byte>) -> string, time: (byte, seq<byte>) -> Option<string>)

  function Join(parts: seq<string>): string {
    if parts == [] then "" else if |parts| == 1 then parts[0] else parts[0] + "," + Join(parts[1..])
  }

  /** The attributes of one relative distinguished name; one that is not a pair is skipped. */
  function Attributes(x: Texts, atvs: seq<Child>): Option<seq<string>> {
    if atvs == [] then Some([])
    else
      var pair := Children(atvs[0].1);
      var rest := Attributes(x, atvs[1..]);
      if pair.None? || rest.None? then None
      else Some((if |pair.value| == 2 then [x.attribute(pair.value[0].1, pair.value[1].1)] else []) + rest.value)
  }

  function Rdns(x: Texts, rdns: seq<Child>): Option<seq<string>> {
    if rdns == [] then Some([])
    else
      var atvs := Children(rdns[0].1);
      if atvs.None? then None
      else
        var first, rest := Attributes(x, atvs.value), Rdns(x, rdns[1..]);
        if first.None? || rest.None? then None else Some(first.value + rest.value)
  }

  function ParseName(x: Texts, content: seq<byte>): Option<string> {
    var rdns := Children(content);
    if rdns.None? then None
    else
      var parts := Rdns(x, rdns.value);
      if parts.None? then None else Some(Join(parts.value))
  }

  lemma NextAttribute(x: Texts, atvs: seq<Child>, i: nat)
    requires i < |atvs|
    ensures Attributes(x, atvs[i..]) ==
              var pair := Children(atvs[i].1);
              if pair.None? then None
              else Prepend(if |pair.value| == 2 then [x.attribute(pair.value[0].1, pair.value[1].1)] else [], Attributes(x, atvs[i + 1..]))
  {
    assert atvs[i..][1..] == atvs[i + 1..];
  }

  lemma NextRdn(x: Texts, rdns: seq<Child>, i: nat)
    requires i < |rdns|
    ensures Rdns(x, rdns[i..]) ==
              var atvs := Children(rdns[i].1);
              if atvs.None? then None
              else if Attributes(x, atvs.value).None? then None
              else Prepend(Attributes(x, atvs.value).value, Rdns(x, rdns[i + 1..]))
  {
    assert rdns[i..][1..] == rdns[i + 1..];
  }

  /** Two nested loops over sets and attributes, collecting parts. */
  method NameOf(x: Texts, content: seq<byte>) returns (name: Option<string>)
    ensures name == ParseName(x, content)
  {
    hide Children, Attributes, Rdns;
    var rdns := IterChildren(content);
    if rdns.None? {
      return None;
    }
    var parts: seq<string> := [];
    ghost var goal := Rdns(x, rdns.value);
    PrependNone([], goal);
    assert rdns.value[0..] == rdns.value;
    for i := 0 to |rdns.value|
      invariant goal == Prepend(parts, Rdns(x, rdns.value[i..]))
    {
      NextRdn(x, rdns.value, i);
      var atvs := IterChildren(rdns.value[i].1);
      if atvs.None? {
        return None;
      }
      ghost var rest := Rdns(x, rdns.value[i + 1..]);
      ghost var before := parts;
      ghost var found := Attributes(x, atvs.value);
      ghost var mine: seq<string> := [];
      PrependNone(parts, found);
      assert atvs.value[0..] == atvs.value;
      for j := 0 to |atvs.value|
        invariant parts == before + mine && found == Prepend(mine, Attributes(x, atvs.value[j..]))
      {
        NextAttribute(x, atvs.value, j);
        var pair := IterChildren(atvs.value[j].1);
        if pair.None? {
          return None;
        }
        ghost var more := if |pair.value| == 2 then [x.attribute(pair.value[0].1, pair.value[1].1)] else [];
        PrependTwice(mine, more, Attributes(x, atvs.value[j + 1..]));
        PrependTwice(before, mine, Some(more));
        if |pair.value| == 2 {
          parts := parts + [x.attribute(pair.value[0].1, pair.value[1].1)];
        }
        mine := mine + more;
        assert parts == before + mine;
      }
      NoAttributes(x, atvs.value);
      PrependNone(mine, found);
      PrependTwice(before, mine, rest);
    }
    NoRdns(x, rdns.value);
    PrependNone(parts, goal);
    return Some(Join(parts));
  }

  lemma NoAttributes(x: Texts, atvs: seq<Child>)
    ensures Attributes(x, atvs[|atvs|..]) == Some([])
  {
  }

  lemma NoRdns(x: Texts, rdns: seq<Child>)
    ensures Rdns(x, rdns[|rdns|..]) == Some([])
  {
  }

  function OrNone(text: string): Option<string> {
    if text == "" then None else Some(text)
  }

  /** Subject, issuer, end of validity; None for anything that is not a certificate. */
  function ParseCertificate(x: Texts, der: seq<byte>): Option<(Option<string>, Option<string>, Option<string>)> {
    var certificate := ReadTlv(der, 0);
    if certificate.None? then None
    else
      var tbs := ReadTlv(certificate.value.value, 0);
      if tbs.None? then None
      else
        var fields := Children(tbs.value.value);
        if fields.None? || fields.value == [] then None
        else
          var i := if fields.value[0].0 == 0xA0 then 3 else 2;
          if i + 2 >= |fields.value| then None
          else
            var issuer, validity, subject := fields.value[i], fields.value[i + 1], fields.value[i + 2];
            if issuer.0 != 0x30 || subject.0 != 0x30 then None
            else
              var issuerName, subjectName := ParseName(x, issuer.1), ParseName(x, subject.1);
              if issuerName.None? || subjectName.None? then None
              else
                var times := Children(validity.1);
                if times.None? || |times.value| < 2 then None
                else Some((OrNone(subjectName.value), OrNone(issuerName.value), x.time(times.value[1].0, times.value[1].1)))
  }

  // Writing a certificate, every length in its shortest form.

  function Canonical(length: nat): (form: Form) {
    if length < 128 then Short
    else if length < 256 then Long(1)
    else if length < 65536 then Long(2)
    else Long(4)
  }

  predicate Sized(children: seq<Child>) {
    forall i :: 0 <= i < |children| ==> |children[i].1| < TWO32
  }

  function CanonicalForms(children: seq<Child>): (forms: seq<Form>)
    ensures |forms| == |children|
  {
    seq(|children|, i requires 0 <= i < |children| => Canonical(|children[i].1|))
  }

  lemma CanonicalFits(children: seq<Child>)
    requires Sized(children)
    ensures AllFit(children, CanonicalForms(children))
  {
    Pow256Values();
  }

  /** The content of a constructed value; empty when a child is too long to be written. */
  function Write(children: seq<Child>): seq<byte> {
    var forms := CanonicalForms(children);
    if AllFit(children, forms) then EncodeAll(children, forms) else []
  }

  lemma WriteRead(children: seq<Child>)
    requires Sized(children)
    ensures Children(Write(children)) == Some(children)
  {
    hide EncodeAll, Children;
    CanonicalFits(children);
    RoundTrip(children, CanonicalForms(children));
  }

  lemma WriteReadOne(child: Child)
    requires |child.1| < TWO32
    ensures ReadTlv(Write([child]), 0).Some?
    ensures ReadTlv(Write([child]), 0).value.tag == child.0 && ReadTlv(Write([child]), 0).value.value == child.1
  {
    hide Encode, ReadTlv;
    CanonicalFits([child]);
    var form := Canonical(|child.1|);
    assert CanonicalForms([child]) == [form];
    assert EncodeAll([child][1..], [form][1..]) == [];
    assert Write([child]) == Encode(child, form) + [];
    assert Write([child]) == [] + Encode(child, form) + [];
    ReadEncoded([], child, form, []);
  }

  const SEQUENCE: byte := 0x30
  const SET: byte := 0x31
  const OID: byte := 0x06

  /** An attribute type and value; a name is a list of sets of attributes. */
  datatype Attribute = Attribute(oid: seq<byte>, textTag: byte, text: seq<byte>)

  function AttributeContent(a: Attribute): seq<byte> {
    Write([(OID, a.oid), (a.textTag, a.text)])
  }

  function Atvs(rdn: seq<Attribute>): (atvs: seq<Child>)
    ensures |atvs| == |rdn|
  {
    seq(|rdn|, i requires 0 <= i < |rdn| => (SEQUENCE, AttributeContent(rdn[i])))
  }

  function Sets(name: seq<seq<Attribute>>): (rdns: seq<Child>)
    ensures |rdns| == |name|
  {
    seq(|name|, i requires 0 <= i < |name| => (SET, Write(Atvs(name[i]))))
  }

  function AttributeTexts(x: Texts, rdn: seq<Attribute>): seq<string> {
    if rdn == [] then [] else [x.attribute(rdn[0].oid, rdn[0].text)] + AttributeTexts(x, rdn[1..])
  }

  function NameTexts(x: Texts, name: seq<seq<Attribute>>): seq<string> {
    if name == [] then [] else AttributeTexts(x, name[0]) + NameTexts(x, name[1..])
  }

  /** No part of the name is longer than a four-byte length can say. */
  predicate Writable(name: seq<seq<Attribute>>) {
    && Sized(Sets(name))
    && forall i :: 0 <= i < |name| ==> WritableRdn(name[i])
  }

  predicate WritableRdn(rdn: seq<Attribute>) {
    && Sized(Atvs(rdn))
    && forall j :: 0 <= j < |rdn| ==> |rdn[j].oid| < TWO32 && |rdn[j].text| < TWO32
  }

  lemma {:induction false} AttributesRead(x: Texts, rdn: seq<Attribute>)
    requires WritableRdn(rdn)
    ensures Attributes(x, Atvs(rdn)) == Some(AttributeTexts(x, rdn))
    decreases |rdn|
  {
    hide Write, Children;
    if rdn != [] {
      assert Atvs(rdn)[1..] == Atvs(rdn[1..]);
      AttributesRead(x, rdn[1..]);
      WriteRead([(OID, rdn[0].oid), (rdn[0].textTag, rdn[0].text)]);
    }
  }

  lemma {:induction false} RdnsRead(x: Texts, name: seq<seq<Attribute>>)
    requires Writable(name)
    ensures Rdns(x, Sets(name)) == Some(NameTexts(x, name))
    decreases |name|
  {
    hide Write, Children, Attributes;
    if name != [] {
      assert Sets(name)[1..] == Sets(name[1..]);
      RdnsRead(x, name[1..]);
      WriteRead(Atvs(name[0]));
      AttributesRead(x, name[0]);
    }
  }

  /** A written name is read back attribute by attribute, in order. */
  lemma NameRoundTrip(x: Texts, name: seq<seq<Attribute>>)
    requires Writable(name)
    ensures ParseName(x, Write(Sets(name))) == Some(Join(NameTexts(x, name)))
  {
    hide Write, Children, Rdns;
    WriteRead(Sets(name));
    RdnsRead(x, name);
  }

  datatype Certificate = Certificate(version: Option<seq<byte>>, serial: Child, algorithm: Child,
                                     issuer: seq<seq<Attribute>>, notBefore: Child, notAfter: Child,
                                     subject: seq<seq<Attribute>>, extra: seq<Child>, signature: seq<Child>)

  /** The fields of the to-be-signed part. */
  function Fields(c: Certificate): seq<Child> {
    (if c.version.Some? then [(0xA0 as byte, c.version.value)] else [])
    + [c.serial, c.algorithm, (SEQUENCE, Write(Sets(c.issuer))), (SEQUENCE, Write([c.notBefore, c.notAfter])),
       (SEQUENCE, Write(Sets(c.subject)))] + c.extra
  }

  function WriteCertificate(c: Certificate): seq<byte> {
    Write([(SEQUENCE, Write([(SEQUENCE, Write(Fields(c)))] + c.signature))])
  }

  /** Everything can be written, and a missing version is not mistaken for one. */
  predicate WellFormed(c: Certificate) {
    && Writable(c.issuer) && Writable(c.subject) && Sized([c.notBefore, c.notAfter])
    && Sized(Fields(c)) && Sized([(SEQUENCE, Write(Fields(c)))] + c.signature)
    && |Write([(SEQUENCE, Write(Fields(c)))] + c.signature)| < TWO32
    && (c.version.None? ==> c.serial.0 != 0xA0)
  }

  /** The first child of a written list is what a single read at its start returns. */
  lemma FirstOf(child: Child, more: seq<Child>)
    requires Sized([child] + more)
    ensures ReadTlv(Write([child] + more), 0).Some?
    ensures ReadTlv(Write([child] + more), 0).value.value == child.1
  {
    hide Encode, ReadTlv;
    var all := [child] + more;
    CanonicalFits(all);
    var forms := CanonicalForms(all);
    assert all[0] == child && forms[0] == Canonical(|child.1|);
    var rest := EncodeAll(all[1..], forms[1..]);
    assert Write(all) == [] + Encode(child, forms[0]) + rest;
    ReadEncoded([], child, forms[0], rest);
  }

  /** Every certificate gives back its subject, its issuer and the end of its validity. */
  lemma CertificateRoundTrip(x: Texts, c: Certificate)
    requires WellFormed(c)
    ensures ParseCertificate(x, WriteCertificate(c))
         == Some((OrNone(Join(NameTexts(x, c.subject))), OrNone(Join(NameTexts(x, c.issuer))), x.time(c.notAfter.0, c.notAfter.1)))
  {
    hide Write, Children, ReadTlv, ParseName;
    var fields := Fields(c);
    var tbs: Child := (SEQUENCE, Write(fields));
    WriteReadOne((SEQUENCE, Write([tbs] + c.signature)));
    FirstOf(tbs, c.signature);
    WriteRead(fields);
    NameRoundTrip(x, c.issuer);
    NameRoundTrip(x, c.subject);
    WriteRead([c.notBefore, c.notAfter]);
    var i := if c.version.Some? then 3 else 2;
    assert fields[i] == (SEQUENCE, Write(Sets(c.issuer)));
    assert fields[i + 1] == (SEQUENCE, Write([c.notBefore, c.notAfter]));
    assert fields[i + 2] == (SEQUENCE, Write(Sets(c.subject)));
  }
}
