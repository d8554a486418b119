/** Voucher codes and the expansion of a transaction's four voucher counts into voucher
    records (frontend/src/utils/vouchers.ts). Randomness is supplied from outside: each code
    is built from eleven draws in [0, 1), the values `Math.random()` would have returned. */
module Vouchers {
  import opened Wrappers
  import opened Seqs

  /** The 36 characters a voucher code is drawn from. */
  const Chars: string := "ABCDEFGHIJKLMNOPQRSTUVWXYZ0123456789"

  /** Every voucher code has this many characters. */
  const CodeLength: nat := 11

  /** The k-th character of the alphabet, spelled out: the capitals, then the digits. */
  function AlphabetChar(k: nat): (c: char)
    requires k < 36
    ensures k < 26 ==> 'A' <= c <= 'Z' && c as int - 'A' as int == k
    ensures k >= 26 ==> '0' <= c <= '9' && c as int - '0' as int == k - 26
  {
    if k < 26 then ('A' as int + k) as char else ('0' as int + k - 26) as char
  }

  lemma CharsSpelledOut()
    ensures |Chars| == 36
    ensures forall k :: 0 <= k < 36 ==> Chars[k] == AlphabetChar(k)
  {
    assert Chars == seq(36, k requires 0 <= k < 36 => AlphabetChar(k));
  }

  /** The character class `[A-Z0-9]`. */
  predicate IsCodeChar(c: char) {
    'A' <= c <= 'Z' || '0' <= c <= '9'
  }

  /** `/^[A-Z0-9]{11}$/.test(voucherId)`: eleven characters, each from the class. */
  predicate IsValidVoucherId(voucherId: string) {
    |voucherId| == CodeLength && forall i :: 0 <= i < |voucherId| ==> IsCodeChar(voucherId[i])
  }

  /** A character is in the class `[A-Z0-9]` exactly when it occurs in the alphabet. */
  lemma CodeCharInAlphabet(c: char)
    ensures IsCodeChar(c) <==> c in Chars
  {
    CharsSpelledOut();
    if IsCodeChar(c) {
      assert Chars[CharIndex(c)] == c;
    }
  }

  /** A code is valid exactly when it has eleven characters, all from the alphabet. */
  lemma ValidVoucherIdMeaning(s: string)
    ensures IsValidVoucherId(s) <==> |s| == CodeLength && forall i :: 0 <= i < |s| ==> s[i] in Chars
  {
    forall i | 0 <= i < |s| {
      CodeCharInAlphabet(s[i]);
    }
  }

  /** The position of a code character in the alphabet. */
  function CharIndex(c: char): (k: nat)
    requires IsCodeChar(c)
    ensures k < 36 && AlphabetChar(k) == c
  {
    if 'A' <= c <= 'Z' then c as int - 'A' as int else c as int - '0' as int + 26
  }

  /** A value `Math.random()` may return. */
  predicate IsDraw(r: real) {
    0.0 <= r < 1.0
  }

  predicate AreDraws(draws: seq<real>) {
    forall i :: 0 <= i < |draws| ==> IsDraw(draws[i])
  }

  /** `Math.floor(r * chars.length)`: a draw scaled to a position in the alphabet. */
  function DrawIndex(r: real): (k: nat)
    requires IsDraw(r)
    ensures k < |Chars|
    ensures k as real <= r * 36.0 < k as real + 1.0
  {
    CharsSpelledOut();
    (r * 36.0).Floor
  }

  /** The code character a single draw selects. */
  function CodeChar(r: real): (c: char)
    requires IsDraw(r)
    ensures IsCodeChar(c)
  {
    CharsSpelledOut();
    Chars[DrawIndex(r)]
  }

  lemma DrawSelects(r: real)
    requires IsDraw(r)
    ensures |Chars| == 36 && 0 <= (r * |Chars| as real).Floor < 36
    ensures Chars[(r * |Chars| as real).Floor] == CodeChar(r)
  {
    assert |Chars| == 36;
    assert r * |Chars| as real == r * 36.0;
  }

  /** The code a sequence of draws spells, one character per draw. */
  function CodeFromDraws(draws: seq<real>): (code: string)
    requires AreDraws(draws)
    ensures |code| == |draws|
  {
    seq(|draws|, i requires 0 <= i < |draws| => CodeChar(draws[i]))
  }

  /** `generateVoucherId`: eleven rounds of picking a character by a draw and appending it. */
  method GenerateVoucherId(random: seq<real>) returns (result: string)
    requires |random| == CodeLength && AreDraws(random)
    ensures result == CodeFromDraws(random)
    ensures IsValidVoucherId(result)
  {
    result := "";
    for i := 0 to CodeLength
      invariant |result| == i
      invariant forall j :: 0 <= j < i ==> result[j] == CodeChar(random[j])
    {
      var c := PickChar(random[i]);
      result := result + [c];
    }
    CodeFromDrawsIsValid(random);
  }

  /** One round: `chars.charAt(Math.floor(random * chars.length))`. */
  method PickChar(random: real) returns (c: char)
    requires IsDraw(random)
    ensures c == CodeChar(random)
  {
    DrawSelects(random);
    var randomIndex := (random * |Chars| as real).Floor;
    c := Chars[randomIndex];
  }

  /** The code the draws spell is a valid one. */
  lemma CodeFromDrawsIsValid(random: seq<real>)
    requires |random| == CodeLength && AreDraws(random)
    ensures IsValidVoucherId(CodeFromDraws(random))
  {
  }

  /** Every valid code is produced by some draws: the generator can reach all 36^11 codes. */
  lemma EveryValidIdIsGenerated(s: string)
    requires IsValidVoucherId(s)
    ensures var draws := DrawsFor(s); |draws| == CodeLength && AreDraws(draws) && CodeFromDraws(draws) == s
  {
    CharsSpelledOut();
    var draws := DrawsFor(s);
    forall i | 0 <= i < |s| ensures CodeChar(draws[i]) == s[i] {
      DrawOfIndex(CharIndex(s[i]));
    }
  }

  /** Draws that select the characters of `s`, one per character. */
  function DrawsFor(s: string): (draws: seq<real>)
    requires forall i :: 0 <= i < |s| ==> IsCodeChar(s[i])
    ensures |draws| == |s| && AreDraws(draws)
    ensures forall i :: 0 <= i < |s| ==> draws[i] == CharIndex(s[i]) as real / 36.0
  {
    seq(|s|, i requires 0 <= i < |s| => CharIndex(s[i]) as real / 36.0)
  }

  lemma DrawOfIndex(k: nat)
    requires k < 36
    ensures IsDraw(k as real / 36.0) && DrawIndex(k as real / 36.0) == k
  {
    assert k as real / 36.0 * 36.0 == k as real;
  }

  /** The fields of a transaction that voucher creation reads. */
  datatype Transaction = Transaction(
    id: string,
    clientName: string,
    clientPhone: Option<string>,
    vouchers50: int,
    vouchers100: int,
    vouchers150: int,
    vouchers200: int)

  /** A voucher row before the database assigns its id and timestamps. */
  datatype NewVoucher = NewVoucher(
    transactionId: string,
    amount: nat,
    voucherCode: string,
    clientName: string,
    clientPhone: Option<string>,
    sortOrder: nat)

  /** How many times `for (let i = 0; i < n; i++)` runs its body. */
  function Iterations(n: int): nat {
    if n < 0 then 0 else n
  }

  /** The number of vouchers a transaction yields. */
  function VoucherTotal(t: Transaction): nat {
    Iterations(t.vouchers200) + Iterations(t.vouchers150) + Iterations(t.vouchers100) + Iterations(t.vouchers50)
  }

  /** The face values of the vouchers in creation order: the 200s, then the 150s, 100s and 50s. */
  function Amounts(t: Transaction): (r: seq<nat>)
    ensures |r| == VoucherTotal(t)
  {
    Repeat(200, t.vouchers200) + Repeat(150, t.vouchers150) + Repeat(100, t.vouchers100) + Repeat(50, t.vouchers50)
  }

  /** The records `createVouchersForTransaction` prepares for insertion, the k-th voucher coded
      by the k-th sequence of draws. */
  function Expected(t: Transaction, codeDraws: seq<seq<real>>): (r: seq<NewVoucher>)
    requires |codeDraws| == VoucherTotal(t)
    requires forall k :: 0 <= k < |codeDraws| ==> |codeDraws[k]| == CodeLength && AreDraws(codeDraws[k])
  {
    var amounts := Amounts(t);
    seq(|amounts|, k requires 0 <= k < |amounts| => Record(t, amounts[k], codeDraws, k))
  }

  /** The record the k-th voucher becomes, of face `amount`. */
  function Record(t: Transaction, amount: nat, codeDraws: seq<seq<real>>, k: nat): NewVoucher
    requires k < |codeDraws| && |codeDraws[k]| == CodeLength && AreDraws(codeDraws[k])
  {
    NewVoucher(t.id, amount, CodeFromDraws(codeDraws[k]), t.clientName, t.clientPhone, k)
  }

  /** One of the four loops: `count` vouchers of face `amount`, numbered on from `sortOrder`. */
  method PushVouchers(t: Transaction, amount: nat, count: int, codeDraws: seq<seq<real>>,
                      vouchers: seq<NewVoucher>, sortOrder: nat)
    returns (vouchers': seq<NewVoucher>, sortOrder': nat)
    requires sortOrder == |vouchers| && sortOrder + Iterations(count) <= |codeDraws|
    requires forall k :: 0 <= k < |codeDraws| ==> |codeDraws[k]| == CodeLength && AreDraws(codeDraws[k])
    ensures sortOrder' == sortOrder + Iterations(count) == |vouchers'|
    ensures vouchers'[..sortOrder] == vouchers
    ensures forall k :: sortOrder <= k < sortOrder' ==> vouchers'[k] == Record(t, amount, codeDraws, k)
  {
    vouchers', sortOrder' := vouchers, sortOrder;
    var i := 0;
    while i < count
      invariant 0 <= i <= Iterations(count)
      invariant sortOrder' == sortOrder + i == |vouchers'|
      invariant vouchers'[..sortOrder] == vouchers
      invariant forall k :: sortOrder <= k < sortOrder' ==> vouchers'[k] == Record(t, amount, codeDraws, k)
    {
      var code := GenerateVoucherId(codeDraws[sortOrder']);
      vouchers' := vouchers' + [NewVoucher(t.id, amount, code, t.clientName, t.clientPhone, sortOrder')];
      sortOrder' := sortOrder' + 1;
      i := i + 1;
    }
  }

  /** The list-building part of `createVouchersForTransaction`; the insert that follows is not
      modelled. An empty result is what the source returns without touching the database. */
  method CreateVouchersForTransaction(t: Transaction, codeDraws: seq<seq<real>>)
    returns (vouchersToCreate: seq<NewVoucher>)
    requires |codeDraws| == VoucherTotal(t)
    requires forall k :: 0 <= k < |codeDraws| ==> |codeDraws[k]| == CodeLength && AreDraws(codeDraws[k])
    ensures vouchersToCreate == Expected(t, codeDraws)
  {
    var sortOrder := 0;
    vouchersToCreate := [];
    var n200, n150, n100 := Iterations(t.vouchers200), Iterations(t.vouchers150), Iterations(t.vouchers100);
    vouchersToCreate, sortOrder := PushVouchers(t, 200, t.vouchers200, codeDraws, vouchersToCreate, sortOrder);
    var after200 := vouchersToCreate;
    vouchersToCreate, sortOrder := PushVouchers(t, 150, t.vouchers150, codeDraws, vouchersToCreate, sortOrder);
    var after150 := vouchersToCreate;
    vouchersToCreate, sortOrder := PushVouchers(t, 100, t.vouchers100, codeDraws, vouchersToCreate, sortOrder);
    var after100 := vouchersToCreate;
    vouchersToCreate, sortOrder := PushVouchers(t, 50, t.vouchers50, codeDraws, vouchersToCreate, sortOrder);
    var expected := Expected(t, codeDraws);
    forall k | 0 <= k < |expected| ensures vouchersToCreate[k] == expected[k] {
      AmountAt(t, k);
      if k < n200 {
        assert vouchersToCreate[k] == after200[k];
      } else if k < n200 + n150 {
        assert vouchersToCreate[k] == after150[k];
      } else if k < n200 + n150 + n100 {
        assert vouchersToCreate[k] == after100[k];
      }
    }
  }

  /** The face value at each position of the creation order. */
  lemma AmountAt(t: Transaction, k: int)
    requires 0 <= k < VoucherTotal(t)
    ensures var n200, n150, n100 := Iterations(t.vouchers200), Iterations(t.vouchers150), Iterations(t.vouchers100);
      Amounts(t)[k] == if k < n200 then 200 else if k < n200 + n150 then 150
                       else if k < n200 + n150 + n100 then 100 else 50
  {
  }

  /** One record per voucher: exactly `vouchers_200 + vouchers_150 + vouchers_100 + vouchers_50`
      of them when the counts are non-negative. */
  lemma VoucherCount(t: Transaction, codeDraws: seq<seq<real>>)
    requires |codeDraws| == VoucherTotal(t)
    requires forall k :: 0 <= k < |codeDraws| ==> |codeDraws[k]| == CodeLength && AreDraws(codeDraws[k])
    requires t.vouchers200 >= 0 && t.vouchers150 >= 0 && t.vouchers100 >= 0 && t.vouchers50 >= 0
    ensures |Expected(t, codeDraws)| == t.vouchers200 + t.vouchers150 + t.vouchers100 + t.vouchers50
  {
  }

  /** Each face value appears exactly as many times as its loop runs. */
  lemma {:induction false} FaceMultiplicities(t: Transaction)
    ensures var m := multiset(Amounts(t));
      && m[200] == Iterations(t.vouchers200) && m[150] == Iterations(t.vouchers150)
      && m[100] == Iterations(t.vouchers100) && m[50] == Iterations(t.vouchers50)
      && |m| == VoucherTotal(t)
  {
    AmountsMultiset(t);
    var m2, m15, m1, m5 := multiset(Repeat<nat>(200, t.vouchers200)), multiset(Repeat<nat>(150, t.vouchers150)),
      multiset(Repeat<nat>(100, t.vouchers100)), multiset(Repeat<nat>(50, t.vouchers50));
    RepeatMultiset(200, t.vouchers200);
    RepeatMultiset(150, t.vouchers150);
    RepeatMultiset(100, t.vouchers100);
    RepeatMultiset(50, t.vouchers50);
    var m := multiset(Amounts(t));
    assert m == m2 + m15 + m1 + m5;
    assert m[200] == m2[200] + m15[200] + m1[200] + m5[200];
    assert m[150] == m2[150] + m15[150] + m1[150] + m5[150];
    assert m[100] == m2[100] + m15[100] + m1[100] + m5[100];
    assert m[50] == m2[50] + m15[50] + m1[50] + m5[50];
  }

  lemma AmountsMultiset(t: Transaction)
    ensures multiset(Amounts(t)) == multiset(Repeat<nat>(200, t.vouchers200)) + multiset(Repeat<nat>(150, t.vouchers150))
      + multiset(Repeat<nat>(100, t.vouchers100)) + multiset(Repeat<nat>(50, t.vouchers50))
  {
  }

  lemma {:induction false} RepeatMultiset(x: nat, n: int)
    ensures forall y :: multiset(Repeat(x, n))[y] == if y == x then Iterations(n) else 0
    decreases Iterations(n)
  {
    if n > 0 {
      RepeatMultiset(x, n - 1);
      assert Repeat(x, n) == Repeat(x, n - 1) + [x];
    }
  }

  /** The records run from the largest face value down: all 200s, then 150s, 100s and 50s. */
  lemma AmountsNonIncreasing(t: Transaction, codeDraws: seq<seq<real>>, i: int, j: int)
    requires |codeDraws| == VoucherTotal(t)
    requires forall k :: 0 <= k < |codeDraws| ==> |codeDraws[k]| == CodeLength && AreDraws(codeDraws[k])
    requires 0 <= i <= j < VoucherTotal(t)
    ensures Expected(t, codeDraws)[i].amount >= Expected(t, codeDraws)[j].amount
  {
    AmountAt(t, i);
    AmountAt(t, j);
  }

  /** `sort_order` numbers the records 0, 1, …, n−1 in list order, each record copies the
      transaction's id, client name and phone, and carries a valid code. */
  lemma RecordsAreNumberedAndCopied(t: Transaction, codeDraws: seq<seq<real>>, k: int)
    requires |codeDraws| == VoucherTotal(t)
    requires forall k :: 0 <= k < |codeDraws| ==> |codeDraws[k]| == CodeLength && AreDraws(codeDraws[k])
    requires 0 <= k < VoucherTotal(t)
    ensures var v := Expected(t, codeDraws)[k];
      && v.sortOrder == k
      && v.transactionId == t.id && v.clientName == t.clientName && v.clientPhone == t.clientPhone
      && v.amount in {50, 100, 150, 200}
      && IsValidVoucherId(v.voucherCode)
  {
    var code := CodeFromDraws(codeDraws[k]);
    AmountAt(t, k);
  }

  /** No records are prepared exactly when no loop runs. */
  lemma EmptyIffNoVouchers(t: Transaction, codeDraws: seq<seq<real>>)
    requires |codeDraws| == VoucherTotal(t)
    requires forall k :: 0 <= k < |codeDraws| ==> |codeDraws[k]| == CodeLength && AreDraws(codeDraws[k])
    ensures Expected(t, codeDraws) == [] <==>
      t.vouchers200 <= 0 && t.vouchers150 <= 0 && t.vouchers100 <= 0 && t.vouchers50 <= 0
  {
    assert |Expected(t, codeDraws)| == VoucherTotal(t);
  }
}
