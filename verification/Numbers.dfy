/** The lesser and the greater of two numbers, as the allocator, the compressor, the
    cache and the embedder all need them. */
module Numbers {
  function Min(a: nat, b: nat): nat {
    if a < b then a else b
  }

  function Max(a: nat, b: nat): nat {
    if a < b then b else a
  }
}
