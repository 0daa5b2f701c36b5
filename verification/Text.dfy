/** Small text helpers shared by the compaction modules. */
module Text {

  function Decimal(n: nat): string {
    if n < 10 then ["0123456789"[n]] else Decimal(n / 10) + ["0123456789"[n % 10]]
  }

  function Min(a: int, b: int): int { if a < b then a else b }
  function Max(a: int, b: int): int { if a < b then b else a }

  function Take(s: string, n: nat): string { if n < |s| then s[..n] else s }
}
