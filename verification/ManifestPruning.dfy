/** Pruning by planned bounds. */
module ManifestPruning {
  import opened Bounds
  import opened BlitzFooter
  import opened BlitzReader
  import opened Plan
  import opened Planner
  import Manifest

  lemma PrunesAlike(f: DataFile, id: int, dtype: DataType, op: Op, lit: Literal)
    ensures FilePrunes(f.(bounds := Manifest.ReadBack(f.bounds)), id, dtype, op, lit) == FilePrunes(f, id, dtype, op, lit)
  {
    Manifest.ReadBackFinds(f.bounds, id);
  }
}
