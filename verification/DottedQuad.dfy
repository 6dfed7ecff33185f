/** The address check of the XML-RPC daemon: scan four numbers, print them again, compare. */
module DottedQuad {
  import opened CText

  const IP_LENGTH := 1024

  datatype IpAddress = IpAddress(data: seq<int>, isIp: bool, ipstr: string)

  predicate IsQuad(q: seq<int>) {
    |q| == 4 && forall i :: 0 <= i < 4 ==> IsInt32(q[i])
  }

  /** Fields k.. joined with dots. */
  function PrintFrom(q: seq<int>, k: nat): string
    requires k < |q|
    decreases |q| - k
  {
    if k == |q| - 1 then PrintInt(q[k]) else PrintInt(q[k]) + "." + PrintFrom(q, k + 1)
  }

  function Print(q: seq<int>): string
    requires |q| == 4
  {
    PrintFrom(q, 0)
  }

  /** How far sscanf got and what the four fields hold then. */
  datatype Scanned = Scanned(fields: seq<int>, count: nat)

  /** sscanf with "%d.%d.%d.%d" from field k on; a field it does not reach keeps its old contents. */
  function ScanFrom(s: string, fields: seq<int>, k: nat): (r: Scanned)
    requires |fields| == 4 && k < 4
    ensures |r.fields| == 4 && k <= r.count <= 4
    ensures IsQuad(fields) ==> IsQuad(r.fields)
    decreases 4 - k
  {
    var n := Strtol(s);
    if n.rest == s then Scanned(fields, k)
    else
      var read := fields[k := ToInt32(n.value)];
      if k == 3 || !StartsWith(n.rest, '.') then Scanned(read, k + 1)
      else ScanFrom(n.rest[1..], read, k + 1)
  }

  /** The check; `garbage` is what the uninitialised fields happen to hold. */
  method CheckIpAddress(data: string, garbage: seq<int>) returns (ip: IpAddress)
    requires IsQuad(garbage)
    ensures ip.isIp <==> exists q :: IsQuad(q) && Print(q) == data
    ensures ip.isIp ==> IsQuad(ip.data) && Print(ip.data) == data
    ensures ip.isIp ==> ScanFrom(data, garbage, 0).count == 4
  {
    hide ScanFrom;
    var fields := ScanFrom(data, garbage, 0).fields;
    var printed := Print(fields);
    var ipstr := if |printed| < IP_LENGTH then printed else printed[..IP_LENGTH - 1];
    ip := IpAddress(fields, data == ipstr, ipstr);
    PrintFits(fields);
    if exists q :: IsQuad(q) && Print(q) == data {
      var q :| IsQuad(q) && Print(q) == data;
      ScanPrinted(q, garbage, 0);
      assert garbage[..0] + q[0..] == q;
    }
  }

  /** The 1024-byte buffer never cuts the reprint. */
  lemma PrintFits(q: seq<int>)
    requires IsQuad(q)
    ensures |Print(q)| <= 47
  {
    forall i | 0 <= i < 4
      ensures |PrintInt(q[i])| <= 11
    {
      PrintIntLength(q[i]);
    }
    assert PrintFrom(q, 3) == PrintInt(q[3]);
    assert |PrintFrom(q, 2)| == |PrintInt(q[2])| + 1 + |PrintFrom(q, 3)|;
    assert |PrintFrom(q, 1)| == |PrintInt(q[1])| + 1 + |PrintFrom(q, 2)|;
  }

  lemma PrintIntLength(x: int)
    requires IsInt32(x)
    ensures |PrintInt(x)| <= 11
  {
    assert Pow10(10) == 1_0000_000_000 by {
      assert Pow10(5) == 100000;
      assert Pow10(10) == 100000 * Pow10(5);
    }
    PrintNatLength(if x < 0 then -x else x, 10);
  }

  /** A canonical print is scanned to its end, whatever the fields held before. */
  lemma {:induction false} ScanPrinted(q: seq<int>, fields: seq<int>, k: nat)
    requires IsQuad(q) && |fields| == 4 && k < 4
    ensures ScanFrom(PrintFrom(q, k), fields, k) == Scanned(fields[..k] + q[k..], 4)
    decreases 4 - k
  {
    hide Strtol, PrintInt;
    var rest := if k == 3 then "" else "." + PrintFrom(q, k + 1);
    var s := PrintFrom(q, k);
    assert s == PrintInt(q[k]) + rest;
    StrtolPrinted(q[k], rest);
    assert Strtol(s) == Scan(q[k], rest);
    assert rest != s;
    var read := fields[k := q[k]];
    if k < 3 {
      assert rest[1..] == PrintFrom(q, k + 1);
      ScanPrinted(q, read, k + 1);
      assert read[..k + 1] + q[k + 1..] == fields[..k] + q[k..];
    } else {
      assert read == fields[..3] + q[3..];
    }
  }

  /** Two runs of the check on the same text agree, though their stack contents differ. */
  lemma {:induction false} GarbageDoesNotMatter(data: string, g: seq<int>, h: seq<int>)
    requires IsQuad(g) && IsQuad(h)
    ensures Print(ScanFrom(data, g, 0).fields) == data <==> Print(ScanFrom(data, h, 0).fields) == data
    ensures Print(ScanFrom(data, g, 0).fields) == data ==> ScanFrom(data, g, 0) == ScanFrom(data, h, 0)
  {
    var a, b := ScanFrom(data, g, 0).fields, ScanFrom(data, h, 0).fields;
    if Print(a) == data {
      ScanPrinted(a, g, 0);
      ScanPrinted(a, h, 0);
    } else if Print(b) == data {
      ScanPrinted(b, g, 0);
      ScanPrinted(b, h, 0);
    }
  }

  /** The check does not look at the size of the numbers: this is no address, yet it passes. */
  lemma {:induction false} OutOfRangePasses(garbage: seq<int>)
    requires IsQuad(garbage)
    ensures Print([999, -1, 0, 0]) == "999.-1.0.0"
    ensures Print(ScanFrom("999.-1.0.0", garbage, 0).fields) == "999.-1.0.0"
  {
    hide ScanFrom;
    var q := [999, -1, 0, 0];
    PrintOutOfRange(q);
    ScanPrinted(q, garbage, 0);
    assert garbage[..0] + q[0..] == q;
  }

  lemma PrintOutOfRange(q: seq<int>)
    requires q == [999, -1, 0, 0]
    ensures Print(q) == "999.-1.0.0"
  {
    assert PrintNat(99) == "99";
    assert PrintNat(999) == "999";
    assert PrintFrom(q, 3) == "0";
    assert PrintFrom(q, 2) == "0.0";
    assert PrintFrom(q, 1) == "-1.0.0";
  }
}
