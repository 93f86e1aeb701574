// The return codes of the inflater.
module ReturnCodes {
  const Z_OK: int := 0
  const Z_STREAM_END: int := 1
  const Z_DATA_ERROR: int := -3
  const Z_MEM_ERROR: int := -4
  const Z_BUF_ERROR: int := -5
}
