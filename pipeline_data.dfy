/**
 * The static catalog of src/data/pipelineData.ts: the seven steps of the eDNA pipeline, in
 * pipeline order, each pending at progress 0 and without an icon (the page attaches one).
 */
module PipelineData {
  import opened PipelineTypes

  const DataDownloadStep: Step := Step(
    "data-download",
    "Data Download & Setup",
    "Downloading raw sequencing data from SRA/ENA databases",
    12.0,
    None,
    Pending,
    0.0,
    "file-processing",
    [
        "Connecting to SRA database",
        "Downloading FASTQ files",
        "Validating file integrity",
        "Setting up workspace directories"],
    [
        "prefetch SRR12345678",
        "fastq-dump --split-files SRR12345678",
        "Downloading: SRR12345678_1.fastq.gz (2.1 GB)",
        "Downloading: SRR12345678_2.fastq.gz (2.1 GB)",
        "MD5 checksum validation: PASSED",
        "Files downloaded successfully to /data/raw/"],
    None,
    Some(Files(
      [],
      [
        "SRR12345678_1.fastq.gz",
        "SRR12345678_2.fastq.gz"],
      "Downloading raw sequencing data...")))

  const QualityControlStep: Step := Step(
    "quality-control",
    "Quality Control & Trimming",
    "Analyzing sequence quality and trimming adapters with fastp",
    15.0,
    None,
    Pending,
    0.0,
    "quality-metrics",
    [
        "Running FastQC analysis",
        "Adapter sequence detection",
        "Quality trimming (Q>20)",
        "Generating QC reports"],
    [
        "fastp -i SRR12345678_1.fastq.gz -I SRR12345678_2.fastq.gz",
        "Detecting adapter sequences...",
        "Read1 before filtering: 1,234,567 reads",
        "Read2 before filtering: 1,234,567 reads",
        "Quality filtering: Q>20, length>100bp",
        "Reads after filtering: 1,189,432 (96.3%)",
        "HTML report generated: fastp_report.html"],
    None,
    Some(Files(
      [
        "SRR12345678_1.fastq.gz",
        "SRR12345678_2.fastq.gz"],
      [
        "trimmed_R1.fastq.gz",
        "trimmed_R2.fastq.gz",
        "fastp_report.html"],
      "Quality filtering and adapter trimming...")))

  const ReadMergingStep: Step := Step(
    "read-merging",
    "Paired-end Read Merging",
    "Merging overlapping paired-end reads using vsearch",
    10.0,
    None,
    Pending,
    0.0,
    "read-merging",
    [
        "Detecting read overlaps",
        "Merging paired reads",
        "Quality score adjustment",
        "Filtering merged reads"],
    [
        "vsearch --fastq_mergepairs trimmed_R1.fastq.gz",
        "Merging paired-end reads...",
        "Minimum overlap: 15bp",
        "Maximum mismatches: 2",
        "Merged reads: 987,654 (83.0%)",
        "Mean merged length: 253bp",
        "Output: merged_reads.fastq"],
    None,
    Some(Files(
      [
        "trimmed_R1.fastq.gz",
        "trimmed_R2.fastq.gz"],
      [
        "merged_reads.fastq",
        "unmerged_R1.fastq",
        "unmerged_R2.fastq"],
      "Merging overlapping read pairs...")))

  const AsvInferenceStep: Step := Step(
    "asv-inference",
    "ASV Inference (DADA2)",
    "Denoising sequences and inferring Amplicon Sequence Variants",
    20.0,
    None,
    Pending,
    0.0,
    "asv-processing",
    [
        "Learning error model",
        "Sequence denoising",
        "ASV inference",
        "Chimera detection and removal"],
    [
        "dada2 --input merged_reads.fastq",
        "Learning error rates from 987,654 reads...",
        "Error model converged after 7 iterations",
        "Denoising sequences...",
        "Inferred 12,847 unique ASVs",
        "Detecting chimeric sequences...",
        "Removed 1,203 chimeras (9.4%)",
        "Final ASV count: 11,644",
        "Output: asv_table.csv, rep_seqs.fasta"],
    None,
    Some(Files(
      [
        "merged_reads.fastq"],
      [
        "asv_table.csv",
        "rep_seqs.fasta",
        "dada2_stats.txt"],
      "Inferring amplicon sequence variants...")))

  const TaxonomicClassificationStep: Step := Step(
    "taxonomic-classification",
    "Taxonomic Classification",
    "Assigning taxonomy using MMseqs2 and SILVA database",
    18.0,
    None,
    Pending,
    0.0,
    "blast-results",
    [
        "Database preparation",
        "MMseqs2 search execution",
        "Confidence scoring",
        "Taxonomic assignment"],
    [
        "mmseqs createdb rep_seqs.fasta queryDB",
        "mmseqs search queryDB silva_db resultDB tmp",
        "Searching 11,644 sequences against SILVA database...",
        "Processing: [████████████████████████████████] 100%",
        "Assigned taxonomy: 8,932 sequences (76.7%)",
        "Unassigned sequences: 2,712 (23.3%)",
        "Mean alignment identity: 94.2%",
        "Output: taxonomy_assignments.txt"],
    None,
    Some(Files(
      [
        "rep_seqs.fasta",
        "asv_table.csv"],
      [
        "taxonomy_assignments.txt",
        "alignment_results.txt"],
      "Searching against reference databases...")))

  const NoveltyDetectionStep: Step := Step(
    "novelty-detection",
    "Novel Species Detection",
    "DNABERT embedding analysis for unassigned sequences",
    25.0,
    None,
    Pending,
    0.0,
    "embedding-space",
    [
        "Extracting unassigned sequences",
        "Generating DNABERT embeddings",
        "Clustering analysis",
        "Novel species candidate identification"],
    [
        "python dnabert_embeddings.py --input unassigned_seqs.fasta",
        "Loading DNABERT-S model...",
        "Model loaded: 6-mer embeddings, 768 dimensions",
        "Generating embeddings for 2,712 sequences...",
        "GPU acceleration enabled (CUDA)",
        "Embedding generation: [████████████████] 100%",
        "Running HDBSCAN clustering...",
        "Identified 47 potential novel species clusters",
        "Top candidates: 8 clusters with >50 reads each",
        "Output: embeddings.npy, clusters.csv"],
    None,
    Some(Files(
      [
        "rep_seqs.fasta",
        "taxonomy_assignments.txt"],
      [
        "embeddings.npy",
        "novel_clusters.csv",
        "candidate_species.fasta"],
      "Analyzing sequence embeddings for novelty...")))

  const DiversityAnalysisStep: Step := Step(
    "diversity-analysis",
    "Biodiversity Analysis",
    "Computing diversity metrics and generating final reports",
    8.0,
    None,
    Pending,
    0.0,
    "diversity-metrics",
    [
        "Alpha diversity calculation",
        "Beta diversity analysis",
        "Species accumulation curves",
        "Report generation"],
    [
        "python diversity_analysis.py --asv_table asv_table.csv",
        "Calculating alpha diversity metrics...",
        "Shannon diversity: 4.23 ± 0.18",
        "Simpson diversity: 0.94 ± 0.02",
        "Observed species: 8,932",
        "Computing beta diversity (Bray-Curtis)...",
        "Generating species accumulation curves...",
        "Creating final biodiversity report...",
        "Report saved: biodiversity_report.html"],
    None,
    Some(Files(
      [
        "asv_table.csv",
        "taxonomy_assignments.txt",
        "novel_clusters.csv"],
      [
        "diversity_metrics.csv",
        "biodiversity_report.html",
        "ordination_plot.png"],
      "Computing biodiversity metrics and generating reports...")))

  const Catalog: seq<Step> := [
    DataDownloadStep, QualityControlStep, ReadMergingStep, AsvInferenceStep,
    TaxonomicClassificationStep, NoveltyDetectionStep, DiversityAnalysisStep]

  /** The ids, in pipeline order. */
  const CatalogIds: seq<string> := [
    "data-download", "quality-control", "read-merging", "asv-inference",
    "taxonomic-classification", "novelty-detection", "diversity-analysis"]

  /** The input files of a step, and the files every step before index `k` outputs. */
  function Inputs(step: Step): seq<string> {
    match step.files
    case None => []
    case Some(f) => f.input
  }

  function Outputs(step: Step): seq<string> {
    match step.files
    case None => []
    case Some(f) => f.output
  }

  function OutputsBefore(steps: seq<Step>, k: nat): (r: seq<string>)
    requires k <= |steps|
    ensures forall x :: x in r <==> exists j :: 0 <= j < k && x in Outputs(steps[j])
  {
    if k == 0 then [] else OutputsBefore(steps, k - 1) + Outputs(steps[k - 1])
  }

  /** Seven steps with exactly these ids, in this order, and no id twice. */
  lemma CatalogIdsInOrder()
    ensures |Catalog| == 7
    ensures Ids(Catalog) == CatalogIds
    ensures forall i, j :: 0 <= i < j < |Catalog| ==> Catalog[i].id != Catalog[j].id
  {
    assert Ids(Catalog) == CatalogIds;
  }

  /** Every duration is positive, so the base increment of every step is defined. */
  lemma CatalogDurationsPositive()
    ensures forall i :: 0 <= i < |Catalog| ==> Catalog[i].duration > 0.0
  {
  }

  /** Every step has four details, at least six logs (the shortest has exactly six), starts pending at 0. */
  lemma CatalogStepShape()
    ensures forall i :: 0 <= i < |Catalog| ==> |Catalog[i].details| == 4
    ensures forall i :: 0 <= i < |Catalog| ==> |Catalog[i].logs| >= 6
    ensures exists i :: 0 <= i < |Catalog| && |Catalog[i].logs| == 6
    ensures forall i :: 0 <= i < |Catalog| ==>
      Catalog[i].status == Pending && Catalog[i].progress == 0.0
      && Catalog[i].icon == None && Catalog[i].currentMessage == None
  {
    assert 0 < |Catalog| && |Catalog[0].logs| == 6;
    assert |QualityControlStep.logs| == 7 && |ReadMergingStep.logs| == 7 && |AsvInferenceStep.logs| == 9;
    assert |TaxonomicClassificationStep.logs| == 8 && |NoveltyDetectionStep.logs| == 10;
    assert |DiversityAnalysisStep.logs| == 9;
  }

  /** Each step reads only files that some earlier step writes (the first step reads none). */
  lemma CatalogInputsProduced()
    ensures forall k, x :: 0 <= k < |Catalog| && x in Inputs(Catalog[k]) ==> x in OutputsBefore(Catalog, k)
  {
    forall k, x | 0 <= k < |Catalog| && x in Inputs(Catalog[k]) ensures x in OutputsBefore(Catalog, k) {
      if k == 1 {
        assert x in Outputs(Catalog[0]);
      } else if k == 2 {
        assert x in Outputs(Catalog[1]);
      } else if k == 3 {
        assert x in Outputs(Catalog[2]);
      } else if k == 4 {
        assert x in Outputs(Catalog[3]);
      } else if k == 5 {
        assert x in Outputs(Catalog[3]) || x in Outputs(Catalog[4]);
      } else if k == 6 {
        assert x in Outputs(Catalog[3]) || x in Outputs(Catalog[4]) || x in Outputs(Catalog[5]);
      }
    }
  }
}
