/** Transaction ids of this chain and of the foreign chains. */
module ForeignIds {
  /** Transaction ids; 0 is the null id, which no transaction has. */
  type TrxId = nat

  /** What a rewriting of a record does to its foreign id. */
  datatype Foreign = Keep | Set(id: string)

  predicate Contains(s: string, t: string) {
    t <= s || (s != "" && Contains(s[1..], t))
  }

  predicate IsEth(symbol: string) {
    symbol == "ETH" || Contains(symbol, "ERC")
  }

  /** What follows the first bar, or everything. */
  function AfterBar(id: string): string {
    if id == "" then "" else if id[0] == '|' then id[1..] else if '|' in id then AfterBar(id[1..]) else id
  }

  /** The key under which a result looks up and records a foreign id; a deposit uses the id as it is. */
  function ResultKey(symbol: string, id: string): string {
    if IsEth(symbol) && '|' in id then AfterBar(id) else id
  }

  /** The part after the first bar. */
  lemma {:induction false} AfterBarExact(id: string, i: nat)
    requires i < |id| && id[i] == '|' && '|' !in id[..i]
    ensures AfterBar(id) == id[i + 1..]
    decreases i
  {
    if i > 0 {
      assert id[0] == id[..i][0] && '|' in id;
      assert id[1..][..i - 1] == id[..i][1..];
      AfterBarExact(id[1..], i - 1);
    }
  }

  lemma {:induction false} AfterBarShorter(id: string)
    requires '|' in id
    ensures |AfterBar(id)| < |id|
    decreases |id|
  {
    if id[0] != '|' {
      assert '|' in id[1..];
      AfterBarShorter(id[1..]);
    }
  }

  /**
   * A deposit and a result of the same foreign transaction share a key unless the id is a barred one of the ETH
   * family.
   */
  lemma KeysAgree(symbol: string, id: string)
    ensures ResultKey(symbol, id) == id <==> !(IsEth(symbol) && '|' in id)
  {
    if IsEth(symbol) && '|' in id {
      AfterBarShorter(id);
    }
  }

  lemma BtcIsNotEth()
    ensures !IsEth("BTC")
  {
    assert "BTC"[1..] == "TC" && "TC"[1..] == "C" && "C"[1..] == "";
    assert "ERC"[0] != "BTC"[0] && !("ERC" <= "BTC");
    assert !Contains("", "ERC");
    assert !Contains("C", "ERC");
    assert !Contains("TC", "ERC");
  }
}
