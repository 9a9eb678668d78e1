/**
 Derivation paths: the account of a path and the path checks (src/utils.rs), with the
 change-account check built on them (src/tx.rs).
 */
module Paths {
  import opened Outcomes
  import opened Words

  type Path = seq<u32>

  const HARDENED: u32 := 0x8000_0000
  const COIN_TYPE: u32 := 133
  const BIP44_PURPOSE: u32 := 44
  const ZIP32_PURPOSE: u32 := 32
  const BIP44_PATH_LEN := 5
  const ZIP32_PATH_LEN := 3

  // `x & 0x7FFF_FFFF` and `x & HARDENED != 0`.
  function Unharden(x: u32): u32 { x % HARDENED }
  predicate IsHardened(x: u32) { x >= HARDENED }

  function DerivationAccount(path: Path): Option<u32> {
    if |path| != BIP44_PATH_LEN && |path| != ZIP32_PATH_LEN then None else Some(path[2])
  }

  // check_change_returns_to_signing_account.
  predicate ChangeReturns(changeAccount: Option<u32>, path: Path) {
    changeAccount.None? || DerivationAccount(path) == changeAccount
  }

  datatype CheckMode = Full(isChangePath: bool) | OnlyCoinType | Zip32Only | PrefixOnly

  predicate Zip32Shape(path: Path) {
    |path| == ZIP32_PATH_LEN && Unharden(path[0]) == ZIP32_PURPOSE
  }

  // check_bip44_compliance, branch by branch.
  predicate CheckBip44Compliance(path: Path, mode: CheckMode) {
    if mode.PrefixOnly? then
      |path| >= 2
      && Unharden(path[0]) in [BIP44_PURPOSE, ZIP32_PURPOSE] && IsHardened(path[0])
      && path[1] == COIN_TYPE + HARDENED
    else if mode.Zip32Only? && !Zip32Shape(path) then false
    else if mode.Full? && Zip32Shape(path) then false
    else if Zip32Shape(path) then
      path[0] == ZIP32_PURPOSE + HARDENED && path[1] == COIN_TYPE + HARDENED && IsHardened(path[2])
    else if |path| != BIP44_PATH_LEN then false
    else if path[0] != BIP44_PURPOSE + HARDENED then false
    else if path[1] != COIN_TYPE + HARDENED then false
    else if mode.Full? then
      if !IsHardened(path[2]) then false
      else if Unharden(path[2]) > 100 then false
      else if path[3] != (if mode.isChangePath then 1 else 0) then false
      else path[4] <= 50000
    else true
  }

  // Every accepted path, written out. H(n) stands for the hardened component n'.
  ghost predicate Zip32Path(path: Path) {
    exists account :: 0 <= account < HARDENED && path == [H(32), H(133), H(account)]
  }

  function H(n: int): u32
    requires 0 <= n < HARDENED
  {
    n + HARDENED
  }

  ghost predicate Bip44Path(path: Path, change: u32) {
    exists account, index {:trigger FullBip44(account, change, index)} ::
      0 <= account <= 100 && 0 <= index <= 50000 && path == FullBip44(account, change, index)
  }

  ghost function FullBip44(account: int, change: u32, index: int): Path
    requires 0 <= account <= 100 && 0 <= index <= 50000
  {
    [H(44), H(133), H(account), change, index]
  }

  // m/44'/133' followed by any three components.
  ghost predicate Bip44Tail(path: Path) {
    |path| == 5 && path[..2] == [H(44), H(133)]
  }

  /** Which paths each mode accepts, hardening bits included. */
  lemma AcceptedPaths(path: Path)
    ensures CheckBip44Compliance(path, Zip32Only) <==> Zip32Path(path)
    ensures forall isChange :: CheckBip44Compliance(path, Full(isChange)) <==>
              Bip44Path(path, if isChange then 1 else 0)
    ensures CheckBip44Compliance(path, OnlyCoinType) <==> Zip32Path(path) || Bip44Tail(path)
    ensures CheckBip44Compliance(path, PrefixOnly) <==>
              |path| >= 2 && (path[..2] == [H(44), H(133)] || path[..2] == [H(32), H(133)])
  {
    Zip32Exact(path);
    forall isChange ensures CheckBip44Compliance(path, Full(isChange)) <==> Bip44Path(path, if isChange then 1 else 0) {
      FullExact(path, isChange);
    }
    if |path| >= 2 {
      assert path[..2] == [path[0], path[1]];
    }
  }

  lemma Zip32Exact(path: Path)
    ensures CheckBip44Compliance(path, Zip32Only) <==> Zip32Path(path)
  {
    if CheckBip44Compliance(path, Zip32Only) {
      assert path == [H(32), H(133), H(Unharden(path[2]))];
    }
  }

  lemma FullExact(path: Path, isChange: bool)
    ensures CheckBip44Compliance(path, Full(isChange)) <==> Bip44Path(path, if isChange then 1 else 0)
  {
    var change: u32 := if isChange then 1 else 0;
    if CheckBip44Compliance(path, Full(isChange)) {
      assert path == FullBip44(Unharden(path[2]), change, path[4]);
    }
  }

  /**
   A signing path that passes the change check after a change path of account a' was
   recorded spends from that very account: m/44'/133'/a' with any last two components, or
   m/32'/133'/a'. The hardening bit is part of the comparison.
   */
  lemma SameWalletAccount(change: Path, path: Path)
    requires CheckBip44Compliance(change, Full(true)) && CheckBip44Compliance(path, OnlyCoinType)
    ensures ChangeReturns(DerivationAccount(change), path) <==>
              exists account :: 0 <= account <= 100 && change[..3] == [H(44), H(133), H(account)]
                                && (path == [H(32), H(133), H(account)] || AccountPath(path, account))
  {
    AcceptedPaths(change);
    AcceptedPaths(path);
    var account := Unharden(change[2]);
    assert change[..3] == [H(44), H(133), H(account)];
    if ChangeReturns(DerivationAccount(change), path) {
      if Zip32Path(path) {
        assert path == [H(32), H(133), H(account)];
      } else {
        assert path[..2] == [path[0], path[1]];
        assert path[..3] == [H(44), H(133), H(account)];
      }
    }
  }

  // m/44'/133'/account' followed by any two components.
  ghost predicate AccountPath(path: Path, account: int)
    requires 0 <= account < HARDENED
  {
    |path| == 5 && path[..3] == [H(44), H(133), H(account)]
  }
}
